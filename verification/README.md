# A verified model of the cabl core

cabl drives USB control surfaces and bridges their real-time side to user
interfaces.  This project models the parts of it that compute something hard,
and proves what they promise for every input, every run and every interleaving.
`dafny verify dfyconfig.toml` checks all of it.

## The queue and the event bridge

`LockFreeQueue.dfy` is the ring buffer as one thread sees it: a class whose
operations are proved against the sequence of items it holds, in the fixed and
the dynamic form.  `QueueProtocol.dfy` is the same buffer shared by one producer
and one consumer thread, as a state machine whose steps are single atomic loads,
atomic stores and slot accesses.  An acquire load may return any value of the
other thread's index from the one last seen up to the newest.  Every
interleaving is shown to answer like a bounded FIFO, stale loads adding only
spurious "full" and "empty" answers, by exactly the number of updates not seen;
the threads never touch a slot in conflict, and neither ever waits.
`QueueCalls.dfy` says the same in the callers' terms: arguments handed in, results
handed back.

`EventDistributor.dfy` is the distributor and its load harness as one thread runs
them.  `EventBridge.dfy` is the distributor on two threads: both queues step one
atomic access at a time while the RT thread dispatches and drains and the UI
thread sends and drains.  Every dispatched event is accounted for once at every
instant, UI observers see exactly what was not dropped, in order, echoes
included, and every call of either thread ends within a bound of its own actions.
`BridgeCalls.dfy` shows what the calls come to: no drain gives up early, and what is
dispatched and sent is what the callers handed in.

## The rhythm generator

`EuclideanWords.dfy` is the theory: words of rests and pulses, the Euclid-style
recursion, and the height walk that shows its words balanced.  `Bjorklund.dfy` is
the generator itself, table loop and doubly recursive `Build`, proved to write
that word with no 8-bit overflow and no table access out of range.
`Sequence.dfy` loops, rotates and edits the result.

## Drawing and the MK1 display

`Canvas.dfy` has the color type, the dirty flags and the pure geometry; `Plotting.dfy`
says which pixels a drawing leaves with which color; `Drawing.dfy` has the canvas whose
line, triangle and circle loops are proved to paint exactly that geometry, in 32-bit
and 16-bit arithmetic.  `GDisplayMaschineMK1.dfy` packs three
5-bit pixels in two bytes.

## The MK1 driver and three smaller algorithms

`MidiIn.dfy` takes MIDI messages out of a byte stream cut into USB packets
(message lengths as in Table II of the MIDI 1.0 Detailed Specification).
`MaschineMK1.dfy` is the tick round robin with its bounded frame retry, over
writes that may each fail.  `PatchBrowser.dfy` steps through named patches,
`UsbMidi.dfy` cuts SysEx into USB-MIDI packets, and `TraceRecorder.dfy` gathers
the rings of the trace recorder.

## Where the code does not meet what one would expect

Each of these is stated with the exact condition, which can be checked before the
call, and with one concrete input.

- `triangleFilled` divides by zero just when exactly two corners lie on row 0
  (`DividesByZeroMeans`; `DividesByZeroExample` has (0, 0), (1, 0), (0, 1)).
- `rotate` stores a position past the end just when the sum it divides is
  negative and no multiple of the length (`RotateKeepsPhase`; `RotateCanMiss`).
- A rhythm has the pulses asked for just when they are no more than the slots; with
  more, every slot gets a pulse (`RhythmPulses`; `OverfullExample` has 5 in 3).
- A realtime byte in a MIDI message leaves it whole just when it comes before or
  after it (`RealtimeInsideMessage`; `RealtimeInsideNoteOn`).
- The result of a SendFrame tick tells whether the frames got through just when the
  two displays are not both dirty (`FailureHidden`; `FailureHiddenAtStart`).

## Model

| member | source | states |
|---|---|---|
| LockFreeQueue.Queue.constructor | inc/cabl/threading/LockFreeQueue.h:103-105 | a queue asked to hold n items starts empty in n + 1 slots |
| LockFreeQueue.Queue.Enqueue | inc/cabl/threading/LockFreeQueue.h:38-51 | accepts exactly when fewer than capacity items are held, and then appends; otherwise changes nothing |
| LockFreeQueue.Queue.Dequeue | inc/cabl/threading/LockFreeQueue.h:54-66 | removes and returns the oldest item; says none exactly when empty |
| LockFreeQueue.Queue.Empty | inc/cabl/threading/LockFreeQueue.h:68-71 | true exactly when nothing is held |
| LockFreeQueue.Queue.Size | inc/cabl/threading/LockFreeQueue.h:75-82 | the number of items held, wrapped around or not |
| Ring.WrapIsModulo | inc/cabl/threading/LockFreeQueue.h:41-41 | the ring successor is the code's modulo |
| Ring.Push | inc/cabl/threading/LockFreeQueue.h:48-49 | writing the tail slot and advancing appends one item to what the ring holds |
| Ring.Pop | inc/cabl/threading/LockFreeQueue.h:63-64 | advancing the head takes away exactly the oldest item |
| QueueProtocol.StepKeeps | inc/cabl/threading/LockFreeQueue.h:38-66 | every atomic step of either thread, whatever its loads return, keeps the invariant |
| QueueProtocol.RunInv | inc/cabl/threading/LockFreeQueue.h:38-66 | the invariant holds in every state of every interleaving |
| QueueProtocol.RunRefinesFifo | inc/cabl/threading/LockFreeQueue.h:23-66 | all answers are those of a bounded FIFO fed one call at a time; dequeued is a prefix of accepted and the rest is in the queue, within capacity |
| QueueProtocol.RunDoesNotRace | inc/cabl/threading/LockFreeQueue.h:40-65 | in no reachable state is a slot access in conflict with, or unordered after, one by the other thread |
| QueueProtocol.WriteDoesNotRace | inc/cabl/threading/LockFreeQueue.h:43-48 | a slot write comes after every read of that slot that the producer's acquire load has not already seen finished |
| QueueProtocol.ReadDoesNotRace | inc/cabl/threading/LockFreeQueue.h:58-63 | a slot read finds its item published by a tail store the consumer has seen |
| QueueProtocol.SlotsExclusive | inc/cabl/threading/LockFreeQueue.h:43-63 | the two threads are never about to touch the same slot |
| QueueProtocol.RefusalMeansFull | inc/cabl/threading/LockFreeQueue.h:43-46 | enqueue refuses if and only if the queue, counting dequeues its load missed, was full at that load |
| QueueProtocol.NoneMeansEmpty | inc/cabl/threading/LockFreeQueue.h:58-61 | dequeue finds nothing if and only if every item held was published after the tail it loaded |
| QueueProtocol.ContentsAreRing | inc/cabl/threading/LockFreeQueue.h:90-92 | slots and newest indices hold exactly the items accepted and not yet delivered |
| QueueProtocol.SizeBounded | inc/cabl/threading/LockFreeQueue.h:75-82 | size never exceeds capacity, from any thread and however stale the loads |
| QueueProtocol.SizeForProducer | inc/cabl/threading/LockFreeQueue.h:75-82 | on the producer's thread size is the true size plus the dequeues its load missed |
| QueueProtocol.SizeForConsumer | inc/cabl/threading/LockFreeQueue.h:75-82 | on the consumer's thread size is the true size less the enqueues its load missed |
| QueueProtocol.WaitFree | inc/cabl/threading/LockFreeQueue.h:38-66 | a call in progress always has a next step, and every step, whatever its load returns, brings it nearer the end, at most five steps off |
| QueueCalls.RunAnswersCalls | inc/cabl/threading/LockFreeQueue.h:37-66 | in every run the queue decides about the very arguments of the enqueue calls, in order, and calls of both kinds return what was decided, but for at most the one under way; accepted are the arguments of the calls that returned true, delivered the results of the dequeues |
| QueueCalls.FifoForCallers | inc/cabl/threading/LockFreeQueue.h:23-66 | with no call under way, the items dequeued are the first of those whose enqueue returned true, in order, with no more than the capacity still to come |
| BridgeProtocol.StepKeeps | inc/cabl/threading/RTSafeEventDistributor.h:182-276 | every action of either thread keeps the bridge invariant |
| BridgeProtocol.RunInv | inc/cabl/threading/RTSafeEventDistributor.h:130-276 | it holds in every state of every run from initialize on empty queues |
| BridgeProtocol.RunConserves | inc/cabl/threading/RTSafeEventDistributor.h:182-246 | at every instant dispatched = delivered + dropped + queued + in flight on either thread |
| BridgeProtocol.CountersAddUp | inc/cabl/threading/RTSafeEventDistributor.h:198-242 | with both threads between calls the published counters balance with the queue |
| BridgeProtocol.UiSeesWhatWasNotDropped | inc/cabl/threading/RTSafeEventDistributor.h:198-243 | each UI observer has seen, in dispatch order, the events that were not dropped; all of them once the queue is drained |
| BridgeProtocol.SentEventsAreDispatched | inc/cabl/threading/RTSafeEventDistributor.h:249-276 | events accepted from the UI thread are dispatched once each, in order, the rest still queued |
| BridgeProtocol.RtObserversSeeAll | inc/cabl/threading/RTSafeEventDistributor.h:193-196 | every RT observer handles every dispatched event in order, dropped or not |
| BridgeProtocol.RtObserversInOrder | inc/cabl/threading/RTSafeEventDistributor.h:193-196 | a lower-priority observer is never ahead of a higher one |
| BridgeProtocol.NeverBlocked | inc/cabl/threading/RTSafeEventDistributor.h:109-118 | in the middle of any call, either thread can take its next step |
| BridgeProtocol.CallsEnd | inc/cabl/threading/RTSafeEventDistributor.h:182-276 | each action of a thread brings its own call nearer the end and leaves the other thread as near to its own; a dispatch takes at most 9 actions more than there are observers, a drain a bound set by its limit |
| BridgeProtocol.RtStepsBounded | inc/cabl/threading/RTSafeEventDistributor.h:182-276 | over any stretch of a run without a new call, the RT thread takes no more actions than its bound at the start |
| BridgeProtocol.UiStepsBounded | inc/cabl/threading/RTSafeEventDistributor.h:222-257 | the same for the UI thread |
| BridgeCalls.UiDrainTakes | inc/cabl/threading/RTSafeEventDistributor.h:234-243 | a call of processUIEvents, whatever the RT thread does meanwhile, takes 32 events or finds the queue empty during the call |
| BridgeCalls.UiDrainAlone | inc/cabl/threading/RTSafeEventDistributor.h:222-246 | undisturbed, it takes the oldest min(32, size) events, every UI observer hears exactly those in order, and the rest stay queued |
| BridgeCalls.RtDrainTakes | inc/cabl/threading/RTSafeEventDistributor.h:271-275 | a call of processRTEvents takes 16 events or finds the queue empty during the call, and dispatches exactly the events it takes |
| BridgeCalls.RtDrainAlone | inc/cabl/threading/RTSafeEventDistributor.h:261-276 | undisturbed, it takes the oldest min(16, size) sent events and every RT observer hears exactly those in order |
| BridgeCalls.RunFollowsCalls | inc/cabl/threading/RTSafeEventDistributor.h:182-276 | events dispatched and not echoed are the arguments of the dispatch calls; what the UI-to-RT queue accepts are arguments of the send calls; the RT-to-UI queue is asked about every event dispatched, so that exactly those it refuses are dropped |
| StdSort.SortSorts | inc/cabl/threading/RTSafeEventDistributor.h:161-162 | sorting gives a sorted permutation |
| EventDistributor.Distributor.Initialize | inc/cabl/threading/RTSafeEventDistributor.h:130-143 | clears observers and counters and leaves the queues as they are |
| EventDistributor.Distributor.Shutdown | inc/cabl/threading/RTSafeEventDistributor.h:145-150 | forgets the observers and keeps counters and queues |
| EventDistributor.Distributor.AddRTObserver | inc/cabl/threading/RTSafeEventDistributor.h:153-165 | refuses null; otherwise the list gains that observer and is ordered by falling priority |
| EventDistributor.Distributor.AddUIObserver | inc/cabl/threading/RTSafeEventDistributor.h:168-177 | refuses null; otherwise the observer comes last |
| EventDistributor.Distributor.NotifyRTObservers | inc/cabl/threading/RTSafeEventDistributor.h:182-217 | calls the i-th RT observer with the event in i-th place, then queues the event when fewer than 1023 are held and counts it as dropped otherwise |
| EventDistributor.Distributor.ProcessUIEvents | inc/cabl/threading/RTSafeEventDistributor.h:222-246 | takes the oldest min(32, size) events; for each in turn calls every UI observer in order of registration |
| EventDistributor.Distributor.SendToRTThread | inc/cabl/threading/RTSafeEventDistributor.h:249-257 | accepts exactly when initialized and not full |
| EventDistributor.Distributor.ProcessRTEvents | inc/cabl/threading/RTSafeEventDistributor.h:261-276 | takes the oldest min(16, size) sent events; each is told to every RT observer in order, queued for the UI where it fits and counted as dropped where not |
| EventDistributor.OperationsKeepBalance | inc/cabl/threading/RTSafeEventDistributor.h:182-276 | dispatching and both drains keep dispatched = delivered + dropped + queued |
| EventDistributor.BurstDropsNewest | inc/cabl/threading/RTSafeEventDistributor.h:198-203 | of a burst of any length the oldest that fit are queued and exactly the others counted as dropped, while RT observers hear all |
| EventDistributor.EchoComesBack | inc/cabl/threading/RTSafeEventDistributor.h:249-276 | of any number of sent events the RT thread takes, RT observers hear all in order, the queue gains those that fit and the rest are counted as dropped; draining then tells the UI observers the queued and the echoed events in order |
| EventDistributor.EventLoadHarness.constructor | examples/eventload/EventLoadHarness.cpp:42-45 | starts with nothing sent and the books balanced, sent = dispatched |
| EventDistributor.EventLoadHarness.Produce | examples/eventload/EventLoadHarness.cpp:64-67 | each round dispatches one parameter change with the wrapping payload and counts it as sent, and keeps the books balanced |
| EventDistributor.EventLoadHarness.Poll | examples/eventload/EventLoadHarness.cpp:130-132 | one bounded drain, which keeps the books balanced |
| EventDistributor.EventLoadHarness.Flush | examples/eventload/EventLoadHarness.cpp:144-155 | after any rounds and drains, ends with the queue empty and sent = delivered + dropped, every queued event delivered in order |
| EventDistributor.DrainAll | examples/eventload/EventLoadHarness.cpp:151-154 | the loop terminates, taking min(32, size) a round, and equals one drain of everything |
| EuclideanWords.PatternCounts | examples/euklid/bjorklund.h:34-51 | the pattern has exactly as many slots and pulses as asked for |
| EuclideanWords.NarrowWindow | examples/euklid/bjorklund.h:28-73 | every cyclic window of k slots holds k * pulses / slots pulses, rounded one way or the other |
| EuclideanWords.PatternBalanced | examples/euklid/bjorklund.h:28-73 | two cyclic windows of equal length never differ by more than one pulse |
| EuclideanWords.PatternGap | examples/euklid/bjorklund.h:28-73 | consecutive pulses are slots / pulses apart, rounded down or up |
| EuclideanWords.LongerGaps | examples/euklid/bjorklund.h:28-73 | exactly slots % pulses of the gaps are one longer than slots / pulses, all others that long |
| EuclideanWords.PatternStarts | examples/euklid/bjorklund.h:40-73 | the word begins with the rests that come to each pulse, rounded down, and then a pulse |
| Bjorklund.Generator.Build | examples/euklid/bjorklund.h:61-73 | writes exactly the block of its level at the position, leaves all other bits alone and advances past it |
| Bjorklund.Generator.FillLevel | examples/euklid/bjorklund.h:40-46 | one round of the table loop, with no local and no table entry leaving the 8-bit range |
| Bjorklund.Generator.FillTables | examples/euklid/bjorklund.h:33-47 | the loop terminates within the tables, which then hold a run of Euclid's algorithm whose weighted block lengths add up to slots |
| Bjorklund.Generator.Compute | examples/euklid/bjorklund.h:28-53 | returns the balanced pattern for pulses up to slots, all pulses beyond (no slots included), and nothing for none, for every number of slots and every number of pulses from 0 whose difference is an 8-bit number |
| Bjorklund.RunningStep | examples/euklid/bjorklund.h:39-47 | a round keeps remainder[L-1] * length + remainder[L] * previous length = slots, and lengths within slots |
| Bjorklund.Lame | examples/euklid/bjorklund.h:39-47 | going past level L takes at least Fib(L + 4) slots |
| Bjorklund.LameBound | examples/euklid/bjorklund.h:39-51 | so with at most 127 slots no table access reaches index 10 |
| Bjorklund.BlockIsPattern | examples/euklid/bjorklund.h:39-73 | what the recursion writes at the final level is the Euclidean pattern |
| Bjorklund.RhythmPulses | examples/euklid/bjorklund.h:28-73 | exactly slots positions and pulses ones for pulses up to slots, a pulse in each slot beyond |
| Bjorklund.RhythmBalanced | examples/euklid/bjorklund.h:28-73 | the rhythm is balanced when it loops |
| Bjorklund.OverfullExample | examples/euklid/bjorklund.h:28-53 | five pulses in three slots fill all three |
| Bjorklund.RhythmExamples | examples/euklid/bjorklund.h:28-73 | three and five pulses in eight slots are the tresillo and the cinquillo, in this rotation |
| Sequence.StepSequence.Calculate | examples/euklid/Sequence.h:20-27 | takes over length and rhythm, keeps position and offset |
| Sequence.StepSequence.Reset | examples/euklid/Sequence.h:38-41 | goes to offset modulo length; past the end just when the offset is negative and no multiple of the length |
| Sequence.StepSequence.Rotate | examples/euklid/Sequence.h:43-47 | stays on a step if and only if the sum divided is not negative or a whole number of laps, and then keeps the distance from offset to position modulo length; otherwise lands that far short of 256 |
| Sequence.StepSequence.Next | examples/euklid/Sequence.h:49-54 | plays the step at the position, from 0 again past the end |
| Sequence.StepSequence.Print | examples/euklid/Sequence.h:29-36 | writes one lap from the current position |
| Sequence.StepSequence.SetStep | examples/euklid/Sequence.h:60-74 | sets that step and no other, and nothing past the length |
| Sequence.StepSequence.ToggleStep | examples/euklid/Sequence.h:75-85 | returns the old value of the step which, moved on by the offset, is the pad modulo length, and flips that step only |
| Sequence.PlayIsWindow | examples/euklid/Sequence.h:49-54 | up to a lap of next calls plays a cyclic window of the sequence |
| Sequence.LapPulses | examples/euklid/Sequence.h:20-54 | any lap, from any position, plays exactly fills pulses, or every step when there are more fills than steps |
| Sequence.PlayBalanced | examples/euklid/Sequence.h:20-54 | two stretches of equally many next calls, of any length and from any positions, differ by at most one pulse |
| Sequence.RotateKeepsPhase | examples/euklid/Sequence.h:43-47 | the position stays below the length if and only if the sum divided is not negative or a multiple of the length, and then position minus offset is kept modulo length |
| Sequence.RotateInRange | examples/euklid/Sequence.h:43-47 | offsets within 0 to length never lead past the end |
| Sequence.RotateCanMiss | examples/euklid/Sequence.h:43-47 | after the length shrank below the offset a rotation can land on 255 |
| Sequence.RotateTwice | examples/euklid/Sequence.h:43-47 | two rotations equal the second alone |
| Sequence.RotateChain | examples/euklid/Sequence.h:43-47 | a chain of any number of rotations equals the last one alone |
| Sequence.ToggleTwice | examples/euklid/Sequence.h:75-85 | toggling a pad twice restores the sequence |
| DirtyChunks.MarksWhenChunksFit | inc/cabl/gfx/CanvasBase.h:166-180 | marking a row makes a clean canvas dirty if and only if there is at most one chunk per row |
| DirtyChunks.OnlyMarks | inc/cabl/gfx/CanvasBase.h:166-180 | marking never clears a flag |
| DirtyChunks.MarksItsRows | inc/cabl/gfx/CanvasBase.h:170-178 | marking a row marks the chunk that has the row among its rows, the last chunk having all rows left over, and no other |
| Raster.LineEnds | src/gfx/Canvas.cpp:97-175 | a line starts at one end and finishes exactly at the other |
| Raster.LineStep | src/gfx/Canvas.cpp:149-174 | each step moves the major axis by one and the minor axis by what the sign of the error says |
| Raster.LineDistinct | src/gfx/Canvas.cpp:149-174 | no point of a line is visited twice |
| Raster.LineNearest | src/gfx/Canvas.cpp:147-174 | the minor coordinate is the one nearest to the true line, of two equally near the further on |
| Raster.LineInBox | src/gfx/Canvas.cpp:97-175 | the line stays in the box of its end points |
| Raster.EdgeInRange | src/gfx/Canvas.cpp:289-316 | an edge crossing lies between the edge's ends and is exact at both |
| Raster.EdgeAccurate | src/gfx/Canvas.cpp:289-316 | it is less than one pixel off the true edge |
| Raster.SpanInRange | src/gfx/Canvas.cpp:287-323 | every scanline span is ordered and within the triangle's columns |
| Raster.SpanTouchesCorners | src/gfx/Canvas.cpp:287-323 | the spans cover all three corners |
| Raster.SpanMeans | src/gfx/Canvas.cpp:287-323 | a span runs from the long side to the upper short side above the middle corner and to the lower one from it on |
| Raster.RowsMember | src/gfx/Canvas.cpp:287-323 | each row from the highest to the lowest corner gets its span and nothing else is filled |
| Raster.RowsDistinct | src/gfx/Canvas.cpp:287-323 | the fill paints no pixel twice |
| Raster.DiscShape | src/gfx/Canvas.cpp:510-514 | outline and interior together are x² + y² < r² + r |
| Plotting.ScanMeans | src/gfx/Canvas.cpp:463-502 | which half or quarter of the square around the centre each circle type scans |
| Raster.OutlineInColumn | src/gfx/Canvas.cpp:510-510 | the outline has a point in every column and row from -r to r |
| Drawing.Canvas.Set | src/gfx/Canvas.cpp:55-80 | the new bytes and flags, for visible, off-screen and transparent writes |
| Drawing.Canvas.Pixel | src/gfx/Canvas.cpp:84-93 | the color stored at the pixel, transparent outside |
| Plotting.PixelBytes | src/gfx/Canvas.cpp:64-92 | a pixel is the three bytes from 3 * width * y + 3 * x on: red, green, blue |
| Plotting.SetPixelIsLocal | src/gfx/Canvas.cpp:55-93 | painting a pixel leaves every other pixel's value alone |
| Plotting.SetPixelReadsBack | src/gfx/Canvas.cpp:55-93 | a painted pixel reads back as painted, complemented in invert mode |
| Plotting.InvertTwice | src/gfx/Canvas.cpp:66-74 | inverting a pixel twice restores every byte |
| Plotting.WriteBack | src/gfx/Canvas.cpp:62-79 | writing back a color that was read changes nothing, dirty flags included |
| Plotting.ImagePixel | src/gfx/Canvas.cpp:55-93 | after any drawing a pixel shows the color of the last plain write to it, inverted as often as it was written in invert mode after that |
| Plotting.ImageInverted | src/gfx/Canvas.cpp:66-74 | with no plain write to it, a pixel is inverted as often as it was written in invert mode, and otherwise as before |
| Plotting.DrawingMarksChanges | src/gfx/Canvas.cpp:76-79 | after any sequence of writes, each pixel that changed is in a dirty chunk, and no flag was lost |
| Drawing.Canvas.Line | src/gfx/Canvas.cpp:97-175 | the error-term loop gives exactly the pixels of the line the color and leaves all others alone, in all octants, without overflow |
| Drawing.Canvas.LineHorizontal | src/gfx/Canvas.cpp:190-196 | gives exactly the pixels x to x + l - 1 of that row the color, and none when the end wraps around |
| Drawing.Canvas.TriangleFilled | src/gfx/Canvas.cpp:215-327 | divides by zero exactly in the row-0 flat-top case; otherwise the sides show the outline color, the rest of the spans the fill color, and all other pixels are as before |
| Drawing.Canvas.FillRows | src/gfx/Canvas.cpp:268-323 | the running sums give the longhand crossing of every row, in 16-bit and 32-bit range, with no other division by zero |
| Drawing.DividesByZeroMeans | src/gfx/Canvas.cpp:278-289 | that case is exactly two of the corners on row 0 |
| Drawing.DividesByZeroExample | src/gfx/Canvas.cpp:278-289 | the triangle (0, 0), (1, 0), (0, 1) is such a case |
| Drawing.Canvas.CircleFilled | src/gfx/Canvas.cpp:451-520 | the pixels with |x² + y² - r²| < r in the part drawn show the outline color, the others inside the fill color, and all other pixels are as before |
| Plotting.CirclePixel | src/gfx/Canvas.cpp:458-519 | the same as one statement about the image, for every circle type |
| Plotting.TrianglePixel | src/gfx/Canvas.cpp:228-326 | what each pixel shows after a triangle: outline over fill over what was there |
| Plotting.CircleMember | src/gfx/Canvas.cpp:467-519 | exactly which offsets a circle type paints, and in which color |
| Plotting.FilledCircleIsDisc | src/gfx/Canvas.cpp:504-519 | a filled full circle paints exactly the points with x² + y² < r² + r |
| Plotting.QuartersPaintFull | src/gfx/Canvas.cpp:482-519 | the four quarters together paint what the full circle does, colors included |
| Plotting.OutlineReachesAll | src/gfx/Canvas.cpp:504-513 | the outline reaches every column and every row |
| GDisplayMaschineMK1.Display.constructor | src/gfx/displays/GDisplayMaschineMK1.cpp:21-24 | a new display is black and dirty |
| GDisplayMaschineMK1.Display.SetWhite | src/gfx/displays/GDisplayMaschineMK1.cpp:28-32 | every byte set, every chunk dirty |
| GDisplayMaschineMK1.Display.SetBlack | src/gfx/displays/GDisplayMaschineMK1.cpp:36-40 | every byte set, every chunk dirty |
| GDisplayMaschineMK1.Display.Set | src/gfx/displays/GDisplayMaschineMK1.cpp:44-88 | the new packed bytes and flags, and no change off screen or transparent |
| GDisplayMaschineMK1.Display.Pixel | src/gfx/displays/GDisplayMaschineMK1.cpp:92-117 | the shade unpacked from the buffer, transparent off screen |
| GDisplayMaschineMK1.PixelBits | src/gfx/displays/GDisplayMaschineMK1.cpp:99-114 | rows of 170 bytes from the top, two bytes to three pixels: bits 0-4, 5-9 and 11-15 from the top |
| GDisplayMaschineMK1.OffScreen | src/gfx/displays/GDisplayMaschineMK1.cpp:47-97 | outside 255 x 64 nothing is drawn and every pixel reads transparent |
| GDisplayMaschineMK1.LevelMeans | src/gfx/displays/GDisplayMaschineMK1.cpp:59-63 | the stored level is the brightness scaled to 31 and rounded to the nearest |
| GDisplayMaschineMK1.ShadeMeans | src/gfx/displays/GDisplayMaschineMK1.cpp:105-112 | the brightness read is the complement of the stored bits scaled to 255 and rounded down |
| GDisplayMaschineMK1.PutGet | src/gfx/displays/GDisplayMaschineMK1.cpp:66-114 | of the three pixels in two bytes the written one reads as written and the other two as before |
| GDisplayMaschineMK1.PutBack | src/gfx/displays/GDisplayMaschineMK1.cpp:66-114 | storing the level that is there changes neither byte |
| GDisplayMaschineMK1.LevelOfShade | src/gfx/displays/GDisplayMaschineMK1.cpp:59-105 | every brightness that can be read is stored as the level it came from |
| GDisplayMaschineMK1.ShadeOfLevel | src/gfx/displays/GDisplayMaschineMK1.cpp:63-105 | every brightness reads back within 5 |
| GDisplayMaschineMK1.SetPixelIsLocal | src/gfx/displays/GDisplayMaschineMK1.cpp:44-117 | writing a pixel changes no other pixel of the screen |
| GDisplayMaschineMK1.SetPixelReadsBack | src/gfx/displays/GDisplayMaschineMK1.cpp:44-117 | a pixel written on screen reads within 5 of the mono asked for |
| GDisplayMaschineMK1.WriteBack | src/gfx/displays/GDisplayMaschineMK1.cpp:44-117 | writing back a color that was read changes no byte |
| GDisplayMaschineMK1.InvertTwice | src/gfx/displays/GDisplayMaschineMK1.cpp:55-82 | two invert writes restore the buffer |
| GDisplayMaschineMK1.FilledReads | src/gfx/displays/GDisplayMaschineMK1.cpp:28-40 | white reads 255 everywhere, black 0 |
| GDisplayMaschineMK1.ChangesAreMarked | src/gfx/displays/GDisplayMaschineMK1.cpp:84-87 | a marked write that changes any byte leaves the chunk of its row dirty |
| MidiIn.Input.PopCompleteMidiMsg | src/devices/ni/MaschineMK1.cpp:44-78 | takes strays and one whole message off the front of the stream's parse, or waits |
| MidiIn.Input.ProcessMidiIn | src/devices/ni/MaschineMK1.cpp:626-642 | emits every complete message of buffer and payload and keeps the rest |
| MidiIn.ParseIsFaithful | src/devices/ni/MaschineMK1.cpp:44-78 | bytes in are messages, strays and at most two waiting bytes, in order |
| MidiIn.ParseIsUnique | src/devices/ni/MaschineMK1.cpp:44-78 | any stream put together from whole messages, strays and an incomplete start is taken apart the same way |
| MidiIn.MessagesRecovered | src/devices/ni/MaschineMK1.cpp:58-77 | any concatenation of channel messages, strays in between, gives exactly those messages |
| MidiIn.ChannelMessages | src/devices/ni/MaschineMK1.cpp:46-69 | status 0xC0 to 0xDF takes one data byte, 0x80 to 0xBF and 0xE0 to 0xEF two; other bytes on their own are skipped |
| MidiIn.ProperMeans | src/devices/ni/MaschineMK1.cpp:46-64 | the pieces of a stream by the ranges of their first bytes |
| MidiIn.ExtractedConcat | src/devices/ni/MaschineMK1.cpp:44-78 | after whole messages and strays a stream is read as if it began there |
| MidiIn.ParseInTwo | src/devices/ni/MaschineMK1.cpp:66-69 | a stream can be cut anywhere and taken up again from what was left |
| MidiIn.FedIsParsed | src/devices/ni/MaschineMK1.cpp:626-642 | feeding packets one by one gives what the whole stream gives |
| MidiIn.PacketHeader | src/devices/ni/MaschineMK1.cpp:628-631 | the first three bytes of a packet, whatever they are, do not belong to the stream |
| MidiIn.SplitDoesNotMatter | src/devices/ni/MaschineMK1.cpp:626-642 | two ways to cut the same bytes into packets give the same messages and residue |
| MidiIn.RealtimeInsideMessage | src/devices/ni/MaschineMK1.cpp:46-77 | a realtime byte leaves a message whole if and only if it is not inside it |
| MidiIn.RealtimeInsideNoteOn | src/devices/ni/MaschineMK1.cpp:46-77 | a clock byte inside a note-on takes the place of the note |
| MaschineMK1.WriteFrame | src/devices/ni/MaschineMK1.cpp:490-552 | succeeds if and only if all 22 chunk writes do, stops at the first that fails, and what it wrote is a prefix of the frame |
| MaschineMK1.FrameCarriesBuffer | src/devices/ni/MaschineMK1.cpp:501-549 | the chunks of a frame end to end are exactly the display's buffer |
| MaschineMK1.FrameShape | src/devices/ni/MaschineMK1.cpp:497-545 | each of the 24 writes of a frame: two of set-up, one with header 0xF7 0x5C, 20 with 0xF6 and one of 338 bytes with 0x52, the display number one higher from the second chunk on |
| MaschineMK1.Serve | src/devices/ni/MaschineMK1.cpp:338-365 | one turn of a dirty display writes the frame up to the first failure, all of its buffer if it succeeds: clean after that or after the third failure in a row, otherwise still dirty |
| MaschineMK1.Controller.Tick | src/devices/ni/MaschineMK1.cpp:322-398 | serves the step of the round robin for any USB results, writes one attempt at the frame of each dirty display and nothing else, and reports the result of the step |
| MaschineMK1.EventKeeps | src/devices/ni/MaschineMK1.cpp:326-397 | drawing, filling and ticking keep the invariant of both displays |
| MaschineMK1.CleanMeansSentOrAbandoned | src/devices/ni/MaschineMK1.cpp:326-397 | in every run a display that is not dirty holds the bytes of the last frame whose writes were all made, at the last attempt, or a frame whose last three attempts all failed; the failures counted stay below three |
| MaschineMK1.AbandonedAfterThree | src/devices/ni/MaschineMK1.cpp:356-364 | in every run a dirty display goes clean if and only if a tick gives it a turn that succeeds or is the third failure in a row, and is given up in the second case only |
| MaschineMK1.CleanWithinThreeTurns | src/devices/ni/MaschineMK1.cpp:338-365 | left alone, a dirty display is clean within three turns, fewer the more it has failed |
| MaschineMK1.EveryThirdTick | src/devices/ni/MaschineMK1.cpp:394-397 | any three ticks in a row give each display exactly one turn |
| MaschineMK1.FailureHidden | src/devices/ni/MaschineMK1.cpp:331-371 | a SendFrame tick reports whether every dirty display got through if and only if the two are not both dirty |
| MaschineMK1.FailureHiddenAtStart | src/devices/ni/MaschineMK1.cpp:331-371 | the very first tick can fail on display 0 and report success |
| PatchBrowser.Browser.HasAnyNames | examples/programchange/ProgramChange.cpp:379-391 | true exactly when one of the five banks has a name |
| PatchBrowser.Browser.Advance | examples/programchange/ProgramChange.cpp:370-419 | always lands on the nearest stop in the direction, cyclically; the fallback is never reached |
| PatchBrowser.Browser.Browse | examples/programchange/ProgramChange.cpp:111-182 | any run of browse clicks is a run of advances, each from the slot the one before landed on |
| PatchBrowser.StopWithinOneLap | examples/programchange/ProgramChange.cpp:393-418 | a stop is at most one lap away in either direction |
| PatchBrowser.NearestIsUnique | examples/programchange/ProgramChange.cpp:393-412 | there is only one slot to land on |
| PatchBrowser.NearestMeans | examples/programchange/ProgramChange.cpp:393-412 | that slot is the nearest named one, or the adjacent one just when there is no name at all |
| PatchBrowser.NamedMeans | examples/programchange/ProgramChange.cpp:372-406 | slots are banks A to E one after the other, 128 programs each, and a stop is a named one, or any when none of the five banks has a name |
| PatchBrowser.NearestLap | examples/programchange/ProgramChange.cpp:395-399 | where the search lands does not depend on the lap it starts from |
| PatchBrowser.UpDown | examples/programchange/ProgramChange.cpp:370-412 | from a stop, up then down, or down then up, is where it started, the wrap from E to A included |
| PatchBrowser.ClicksReturn | examples/programchange/ProgramChange.cpp:370-412 | two moments of any run of clicks show the same slot if and only if the clicks up less the clicks down between them are a multiple of the number of stops |
| PatchBrowser.VisitsEach | examples/programchange/ProgramChange.cpp:370-412 | in any run of clicks up, over any number of laps, the k-th click reaches the stop with k - 1 stops before it |
| PatchBrowser.FullTour | examples/programchange/ProgramChange.cpp:370-412 | with n stops, n clicks either way from one come back to it having stopped at each exactly once |
| UsbMidi.PacketsShape | src/devices/generic/USBMidi.cpp:38-80 | ceil(n / 3) four-byte packets, only the last with an end code, unused bytes zero |
| UsbMidi.PacketsMean | src/devices/generic/USBMidi.cpp:40-74 | every packet byte by byte: 0x04 and three bytes, and last 0x05, 0x06 or 0x07 by what is left of three |
| UsbMidi.RoundTrip | src/devices/generic/USBMidi.cpp:38-80 | decoding by Code Index Number gives the message back |
| UsbMidi.RoundTripBack | src/devices/generic/USBMidi.cpp:38-80 | no other well-formed packets decode to it |
| UsbMidi.SendSysex | src/devices/generic/USBMidi.cpp:33-81 | sends those packets in order, stops after the first failed write, and succeeds if and only if none failed |
| TraceRecorder.ThreadBuffer.Record | inc/cabl/trace/TraceRecorder.h:240-252 | adds one event to the thread's history, the ring keeping the newest |
| TraceRecorder.HoldsMore | inc/cabl/trace/TraceRecorder.h:243-244 | overwriting the slot of the event's number keeps the ring in step with the history, wrapping or not |
| TraceRecorder.SlotsAreKept | inc/cabl/trace/TraceRecorder.h:207-212 | the slots in use are the newest min(n, 65536) events, rotated |
| TraceRecorder.AllRowsMean | inc/cabl/trace/TraceRecorder.h:203-213 | each event among the newest 65536 of a thread gives as many rows under that number as it was recorded, and no others |
| TraceRecorder.GatherSortedRows | inc/cabl/trace/TraceRecorder.h:192-222 | a timestamp-sorted permutation of the rows of the newest min(n, 65536) events of every thread |

## Left out

- Bjorklund.Generator.Compute: the word is a sequence of bits rather than a machine integer; shifting past its width is undefined in C++, so the rhythm must fit in it. Negative pulses, and slots so far below the pulses that their difference wraps around in 8 bits, are not modelled.
- Sequence.StepSequence.Calculate: steps are 1 to 32 and the rhythm fits in 32 bits; a length of 0 divides by zero later, and a longer rhythm shifts past the word.
- Sequence.StepSequence.constructor: the bits and the offset, which no constructor of the code sets, are parameters.
- Sequence.StepSequence.ToggleStep: the rotated pad must fall in the word, since the code shifts by it without a check.
- The Euklid application around the sequencer does not clamp pulses when the length shrinks (examples/euklid/Euklid.cpp:177-183), so it can leave the range of the balance theorems; the generator is modelled there too, the application is not.
- Queue indices and counters are unbounded; 64-bit wrap-around is not modelled.
- QueueProtocol.SizeBounded: from a third thread only the bound is claimed, as the source calls the value approximate there.
- Processing-time statistics, the UI drop counter that nothing increments, `resetStatistics`, races on the `initialized` flag, and re-initializing with events still queued while both threads run.
- StdSort.SortSorts: `std::sort` is an insertion sort of which the other modules use only that it gives a sorted permutation.
- Observers are logs of the calls they get; what they do in them is not modelled, nor is a distributor that calls itself.
- EventDistributor.EventLoadHarness.Produce: pacing, the dashboard and the clock are left out; the time stamp is arbitrary.
- Drawing.Canvas.Line: coordinates are below 2^31 - 1 and less than 2^30 apart, beyond which the 32-bit signed arithmetic of the code overflows.
- Drawing.Canvas.TriangleFilled: corners are below 2^31 - 1 and less than 2^15 apart, beyond which the 16-bit differences overflow; the same for the FillRows it calls.
- Drawing.Canvas.FillRows: see TriangleFilled.
- Drawing.Canvas.CircleFilled: the radius is below 2^15, beyond which the 32-bit squares overflow.
- Drawing.Canvas.LineHorizontal: arguments are 32-bit unsigned numbers, as in the code.
- Whole-buffer `fill` and `invert` of the canvas set no dirty flags, and neither does `setPixel` when told not to; only marked writes and the display's own white and black appear in the dirty-flag theorems.
- Rectangles, rounded rectangles, bitmaps and text: loops over the same pixel writes, with no new property.
- GDisplayMaschineMK1.ShadeOfLevel: the floating-point scaling is modelled by exact integer quotients, which it equals because it never meets a tie.
- Running status and system messages in the MIDI stream: the code skips them as strays, and so does the model.
- MaschineMK1.Controller.Tick: drawing and ticking interleave as whole operations; `read` and `sendLeds` are results, and pads, buttons, encoders and LEDs are not modelled.
- USB transfers are arbitrary successes and failures; sleeping between writes is left out.
- The desktop branch of `sendSysex` hands the whole message to one write.
- The other handlers of the ProgramChange example, which only assign fields.
- TraceRecorder.ThreadBuffer.Record: recording and gathering do not overlap in time, so a slot is never read half written; event counts are unbounded.
- JSON and summary output of the trace recorder, logging, device discovery and the remaining devices.
