# Proofs about the SDR++ core

This project models parts of the SDR++ core in Dafny and proves properties of the model: the dataflow
runtime that moves samples between blocks and is rewired while it runs, the worker that saves
configurations in the background, the remote user interface, the embedded HTTP parser, themes, and two
tools of libcorrect. Code that changes objects step by step is modelled by classes whose methods are
proved against functions on values; what the code promises is proved about those functions. Concurrent
code is a transition system with one step for each region executed under a lock, so that a theorem about
its runs covers every interleaving.

`dafny verify dfyconfig.toml` checks everything.

| files | what they model |
|---|---|
| Stream.dfy | the double buffer handed between one writer and one reader: values, and the object whose methods are the regions executed under a lock |
| Pipeline.dfy, PipelineInvariant.dfy, PipelineDelivery.dfy, PipelineTermination.dfy | any number of blocks joined by streams, with their run loops and the threads that stop and restart them, as a transition system over program counters; its invariant; what is delivered; why stopping ends |
| Block.dfy | the worker of a block: start, stop and counted brackets, and a log of who reads what |
| Wiring.dfy, Chain.dfy, ChainRuns.dfy, FrontEnd.dfy | the chain that is rewired while it runs: the wiring as a value, the object, any sequence of calls, and the front end's use of it |
| FftPath.dfy | the FFT branch that is reconfigured while its sink runs |
| AutoSave.dfy, AutoSaveInvariant.dfy, AutoSaveTheorems.dfy | any number of threads and configuration managers with one save worker, as a transition system; its invariants; the theorems |
| SaveWorker.dfy, Lists.dfy | the jobs, the list and the managers as objects, each region tied to a step of that system |
| DrawListWire.dfy, Widgets.dfy, Replay.dfy | the remote menu: the elements and their bytes, the widget calls, and the interpreter |
| DrawList.dfy, Recorder.dfy, RemoteMenu.dfy | the draw list and the recording functions as objects, and the whole way from server to client |
| UrlCodec.dfy | percent-encoding and decoding, section 2.1 of RFC 3986 |
| HttpRequest.dfy, HttpRoundTrip.dfy, HttpFields.dfy, HttpPool.dfy, HttpLimits.dfy, HttpParser.dfy | the incremental request parser, sections 3, 5 and 6.2 of RFC 9112: one byte as a function, parsing as the inverse of printing, which header lines are kept, when the strings in the pool stay apart, what is kept of a message that is too long, and the object |
| Gradient.dfy, Theme.dfy | theme colours, gradients and documents |
| Bpsk.dfy, PolySearch.dfy | the test channel and the polynomial search of libcorrect |

Things the code does that its callers may not expect, each with a lemma that says exactly when:

- `addBlock(enabled = true)` on a running chain leaves the consumer on the stream that the new block
  reads (`Wirings.SecondReader`, `Chains.Chain.AddBlock`).
- `stop()` inside a `tempStop` bracket is undone by the closing `tempStart`
  (`Blocks.KeepsOkExactly`, `Blocks.BracketsDoNotCoverStartAndStop`).
- `enableAutoSave()` racing `disableAutoSave()` can lose an update (`AutoSaveTheorems.RaceLosesUpdate`):
  exactly when it leaves autosave on with the job's back pointer null
  (`AutoSaveTheorems.UnsavedIfDetached`).
- The reshaper as `init` leaves it keeps `fftSize` samples, so the FFT rate is too low until the branch
  is rebuilt if the FFT is longer than the interval (`FftPaths.FftPath.Init`,
  `FftPaths.InitKeepsTooMany`).
- Strings of 65536 bytes and more do not survive the draw list's wire format
  (`DrawListWire.RoundTripExactly`), and an item cut by one byte is read past its end
  (`DrawListWire.OverrunExactly`).
- A popup inside a closed popup, or a table inside a closed table, ends the skipping early
  (`Replay.SkipsOwnBracket`).
- A header line is kept exactly when it has a name and a value (`HttpFields.LineExactly`). One with an
  empty value becomes part of the next header's name (`HttpFields.EmptyValueMerges`); after one with an
  empty name the next value is written over the next name (`HttpFields.NamelessOverwrites`), which is
  the only way for strings in the pool to overlap (`HttpPools.ApartExactly`).
- `Content-Length: 0` waits for one byte more (`HttpRoundTrip.DoneWithTheLastByte`).
- A slider past its end is saved as it is and comes back at the end (`Themes.SliderPastItsEnd`,
  `Themes.DumpApplyDump`).
- The polynomial search of order 1 tries the even coefficient 2, and beyond order 16 coefficients without
  the top bit (`PolySearch.CandidatesExactly`).
- `roundSetting` applied twice differs from once for values of -0.0015 and below
  (`Gradients.RoundedTwice`).

## Model

| member | source | states |
|---|---|---|
| `Streams.Stream.constructor` | core/src/dsp/stream.h:197-217 | a stream starts empty, with two buffers of the same size, and the writer may swap |
| `Streams.Stream.BeginSwap` | core/src/dsp/stream.h:88-103 | the first region of swap: a stopped writer is refused and changes nothing; otherwise the two buffers change hands and the writer may not swap again |
| `Streams.Stream.FinishSwap` | core/src/dsp/stream.h:105-110 | the second region of swap: the frame is ready, nothing else changes |
| `Streams.Stream.EnterRead` | core/src/dsp/stream.h:115-121 | a reader registers before it waits |
| `Streams.Stream.LeaveRead` | core/src/dsp/stream.h:122-129 | a stopped reader gets -1 even with a frame pending, any other the size of the frame; the frame stays |
| `Streams.Stream.BeginFlush` | core/src/dsp/stream.h:139-144 | the frame is no longer ready |
| `Streams.Stream.FinishFlush` | core/src/dsp/stream.h:146-150 | only now the writer may swap |
| `Streams.Stream.StopWriter` | core/src/dsp/stream.h:155-161 | raises the writer's stop flag and leaves buffers and token alone |
| `Streams.Stream.ClearWriteStop` | core/src/dsp/stream.h:163-165 | lowers it |
| `Streams.Stream.BeginStopReader` | core/src/dsp/stream.h:167-172 | raises the reader's stop flag and leaves buffers and token alone |
| `Streams.Stream.ClearReadStop` | core/src/dsp/stream.h:184-186 | lowers it |
| `PipelineInvariant.WriterKeepsLink` | core/src/dsp/stream.h:88-113 | every step of a writer keeps the invariant of its output stream: one token, whole frames, sent = consumed + the frame on the way |
| `PipelineInvariant.ReaderKeepsLink` | core/src/dsp/stream.h:115-153 | every step of a reader keeps the invariant of its input stream, and what it reads is not written to meanwhile |
| `PipelineInvariant.ReaderKeepsNode` | core/src/dsp/processor.h:8-36 | a reader's frame, its stage's state and its history stay consistent through read, process and flush |
| `PipelineInvariant.WriterKeepsHistory` | core/src/dsp/processor.h:8-36 | what a block has sent is what its stage produced, minus the swaps refused |
| `PipelineInvariant.ControlKeepsNode` | core/src/dsp/block.h:82-109 | joining and launching a worker keeps the node's invariant |
| `PipelineInvariant.OutsSnoc` | core/src/dsp/processor.h:8-36 | one frame more: process() runs on the state the frames before have left, and what it computes is handed on, unless the block is multirate and it is empty |
| `PipelineInvariant.SwapsExactly` | core/src/dsp/processor.h:17-34 | after flush the worker goes to swap if and only if the block is not multirate or has computed samples |
| `PipelineInvariant.StopCountsOne` | core/src/dsp/block.h:86-109 | every call of doStop counts as one stop and nothing else does |
| `PipelineInvariant.NextKeepsInv` | core/src/dsp/processor.h:8-36 | the whole invariant is kept by every step of every worker, of the source and of every doStop and doStart, in any order |
| `PipelineInvariant.InitHasInv` | core/src/dsp/processor.h:56-61 | blocks just built and started satisfy the invariant, whatever is in the buffers |
| `PipelineInvariant.RunHasInv` | core/src/dsp/stream.h:88-186 | the invariant holds in every state of every run |
| `PipelineDelivery.SentFollowsFlow` | core/src/dsp/processor.h:8-36 | what each block has sent is a prefix of the flow of the stages before it |
| `PipelineDelivery.DeliveredInOrder` | core/src/dsp/processor.h:8-36 | in every state of every run the sink has a prefix of the flow, in order, nothing torn or duplicated, and a block has lost at most one frame for each stop |
| `PipelineDelivery.DeliveredIsComposition` | core/src/dsp/processor.h:8-36 | as long as no block has been stopped: exactly a prefix of the composed stages applied to the source's frames |
| `PipelineDelivery.FlowWithoutDrops` | core/src/dsp/processor.h:8-36 | a flow in which no swap was refused is the composition of the stages |
| `PipelineDelivery.CanWorkWorks` | core/src/dsp/stream.h:88-153 | the enabling condition of a worker is exactly that it has a step |
| `PipelineDelivery.NeverBlocked` | core/src/dsp/stream.h:88-153 | with no stop requested, no worker can step if and only if everything is idle and the source is between frames |
| `PipelineDelivery.IdleMeansDelivered` | core/src/dsp/stream.h:88-153 | when the workers have run dry the sink has the whole flow |
| `PipelineDelivery.ReadyFrameStays` | core/src/dsp/block.h:86-109 | a frame that is ready survives every step, stops and restarts included, unchanged until its reader consumes exactly it |
| `PipelineTermination.WorkersRunDry` | core/src/dsp/block.h:69-80 | every worker step lowers a natural number, stopped or not |
| `PipelineTermination.WorkerRunIsBounded` | core/src/dsp/block.h:69-80 | a run of workers alone has no more steps than that number |
| `PipelineTermination.StopNeverStuck` | core/src/dsp/block.h:86-99 | while doStop runs, it or the block's own worker can step |
| `PipelineTermination.StopWorks` | core/src/dsp/stream.h:115-161 | each step of a worker that is being stopped brings it nearer to its exit |
| `PipelineTermination.StopControls` | core/src/dsp/block.h:86-109 | each step of doStop brings it nearer to its end and leaves the worker's distance alone |
| `PipelineTermination.StopTerminates` | core/src/dsp/block.h:86-109 | the steps left to stop a block fall with each of its own steps and never rise with a neighbour's, so the spin and the join end whatever the peers do |
| `Blocks.KeepsOkExactly` | core/src/dsp/block.h:28-64 | tempStart and tempStop always keep the flags consistent; start and stop if and only if they do nothing or no bracket is open |
| `Blocks.LivesBetweenBrackets` | core/src/dsp/block.h:28-64 | over any run with start and stop outside the brackets, the worker lives exactly when the last of them was a start and no bracket is open |
| `Blocks.BracketUndone` | core/src/dsp/block.h:48-64 | a bracket leaves the flags as they were, and the worker is gone inside it |
| `Blocks.BracketsDoNotCoverStartAndStop` | core/src/dsp/block.h:28-55 | two concrete runs: a stop inside a bracket is undone by the closing tempStart, a start inside one runs the worker at once |
| `Blocks.Processor.constructor` | core/src/dsp/processor.h:56-61 | a processor is registered with its input and not started |
| `Blocks.Processor.DoStart` | core/src/dsp/block.h:82-84 | one worker is started, reading the input, never a second one |
| `Blocks.Processor.DoStop` | core/src/dsp/block.h:86-109 | the worker is joined after its stream was told to stop, and no other worker is touched |
| `Blocks.Processor.Start` | core/src/dsp/block.h:28-36 | the flags and the worker after start |
| `Blocks.Processor.Stop` | core/src/dsp/block.h:38-46 | the flags and the worker after stop |
| `Blocks.Processor.TempStart` | core/src/dsp/block.h:48-55 | the flags and the worker after tempStart: it starts the worker only as the last bracket closes |
| `Blocks.Processor.TempStop` | core/src/dsp/block.h:57-64 | the flags after tempStop, and the worker is gone |
| `Blocks.Processor.RegisterInput` | core/src/dsp/block.h:119-125 | the input is added; a second one would abort, which the precondition excludes |
| `Blocks.Processor.UnregisterInput` | core/src/dsp/block.h:127-129 | the erase-remove idiom takes out every copy of the input and keeps the order of the rest |
| `Blocks.Processor.SetInput` | core/src/dsp/processor.h:63-76 | in any bracket: one input registered, the flags as before, and the worker stopped while the input changes |
| `Wirings.PathAround` | core/src/dsp/chain.h:180-199 | switching one block leaves the path before and behind it as it is |
| `Wirings.AlongIsExclusive` | core/src/dsp/chain.h:165-199 | along a path every stream has one reader |
| `Wirings.InsertAlong` | core/src/dsp/chain.h:75-85 | moving the reader behind a block to its output makes room for the block in the path |
| `Wirings.DeleteAlong` | core/src/dsp/chain.h:110-117 | moving the reader behind a block to the stream before it closes the gap |
| `Wirings.OkIsExclusive` | core/src/dsp/chain.h:20-204 | in a consistent chain no stream has two readers, the consumer of the output included |
| `Wirings.HistoryIndependent` | core/src/dsp/chain.h:205-208 | the output, the started blocks and the input of every enabled block are a function of the input, the list, the flags and the running state, whatever calls came before |
| `Wirings.EnableKeepsWiring` | core/src/dsp/chain.h:61-90 | the steps of enableBlock lead from a consistent chain to a consistent one, through situations with one reader a stream if the consumer is told |
| `Wirings.Enabling` | core/src/dsp/chain.h:61-90 | the same for the i-th block, with every situation on the way; if the consumer is not told and no enabled block is behind, what differs exactly |
| `Wirings.DisableKeepsWiring` | core/src/dsp/chain.h:92-118 | the steps of disableBlock keep a chain consistent |
| `Wirings.Disabling` | core/src/dsp/chain.h:92-118 | the same for the i-th block, with every situation on the way |
| `Wirings.SetInputKeepsWiring` | core/src/dsp/chain.h:20-30 | moving the first reader of the path to the new input keeps a chain consistent |
| `Wirings.SettingInput` | core/src/dsp/chain.h:20-30 | the same with every situation on the way |
| `Wirings.AddKeepsWiring` | core/src/dsp/chain.h:38-40 | a block added disabled changes nothing for the others |
| `Wirings.RemoveKeepsWiring` | core/src/dsp/chain.h:56-58 | taking out a disabled block changes nothing for the others |
| `Wirings.SecondReader` | core/src/dsp/chain.h:43 | a reader put on the output of a consistent chain is one too many if and only if the consumer runs |
| `Wirings.StartingKeepsWiring` | core/src/dsp/chain.h:144-160 | starting and stopping all enabled blocks keeps a chain consistent, with one reader a stream on the way |
| `Wirings.RetapKeepsWiring` | core/src/signal_path/iq_frontend.cpp:357-360 | telling the consumer of the output afterwards makes the chain consistent |
| `Chains.Chain.constructor` | core/src/dsp/chain.h:14-17 | an empty chain passes its input through |
| `Chains.Chain.BlockBefore` | core/src/dsp/chain.h:180-187 | the nearest enabled block in front, not the first one of the list |
| `Chains.Chain.BlockAfter` | core/src/dsp/chain.h:189-199 | the nearest enabled block behind |
| `Chains.Chain.EnableBlock` | core/src/dsp/chain.h:61-90 | an unknown block is refused; otherwise only its flag changes and the wiring is again that of the flags; with a callback every situation on the way has one reader a stream |
| `Chains.Chain.DisableBlock` | core/src/dsp/chain.h:92-118 | an unknown block is refused; otherwise only its flag changes, the wiring is that of the flags, and every situation on the way has one reader a stream |
| `Chains.Chain.SetBlockEnabled` | core/src/dsp/chain.h:120-128 | either of the two, by the argument |
| `Chains.Chain.EnableAllBlocks` | core/src/dsp/chain.h:130-135 | every flag is set and the chain is consistent |
| `Chains.Chain.DisableAllBlocks` | core/src/dsp/chain.h:137-142 | every flag is cleared and the chain is consistent |
| `Chains.Chain.AddBlock` | core/src/dsp/chain.h:32-44 | a known block is refused; the block comes last in the list; one situation is passed if it is started, none otherwise, and afterwards no stream has two readers if and only if the block is not both enabled and the chain and the consumer running |
| `Chains.Chain.AddAndRetap` | core/src/signal_path/iq_frontend.cpp:357-360 | adding a block and then telling the consumer of the output: the wiring is right in the end, and over all situations on the way no stream had two readers if and only if the block was not switched on at once with the chain and the consumer running |
| `Chains.Chain.RemoveBlock` | core/src/dsp/chain.h:46-60 | an unknown block is refused; otherwise exactly it leaves the list and the flags and is stopped, the chain stays consistent with one reader a stream on the way |
| `Chains.Chain.SetInput` | core/src/dsp/chain.h:20-30 | the input changes, the wiring follows, one reader a stream on the way |
| `Chains.Chain.Start` | core/src/dsp/chain.h:144-151 | exactly the enabled blocks run, one reader a stream on the way |
| `Chains.Chain.Stop` | core/src/dsp/chain.h:153-160 | no block runs, one reader a stream on the way |
| `ChainRuns.Drive` | core/src/dsp/chain.h:14-204 | any sequence of all these calls, adding included: input, list, flags and running state are a function of the calls; the input of every enabled block and of the consumer and what is started are a function of those; and no stream had two readers at any moment if and only if no call has added an enabled block while the chain and its consumer were running |
| `FrontEnds.Preprocessing.AddPreprocessor` | core/src/signal_path/iq_frontend.cpp:357-360 | the chain ends consistent with the processor last in the list; over all situations on the way no stream has two readers if and only if the processor was not started at once or the splitter does not run |
| `FrontEnds.Preprocessing.RemovePreprocessor` | core/src/signal_path/iq_frontend.cpp:362-364 | exactly the processor leaves the list, the splitter follows, one reader a stream on the way |
| `FrontEnds.Preprocessing.TogglePreprocessor` | core/src/signal_path/iq_frontend.cpp:366-372 | the processor is switched, the splitter follows, one reader a stream on the way |
| `FftPaths.GenReshapeParams` | core/src/signal_path/iq_frontend.h:110-114 | the samples of one FFT period to the nearest sample, as many kept as fit in the FFT, the rest skipped |
| `FftPaths.FftPath.Init` | core/src/signal_path/iq_frontend.cpp:48-66 | before anything is started the sizes fit and the window is right; the reshaper keeps fftSize samples of each period, so the period is that of the FFT rate if and only if fftSize is at most the rounded interval |
| `FftPaths.PeriodIsInterval` | core/src/signal_path/iq_frontend.h:110-114 | there is one period for a sample rate and an FFT rate: the rounded interval |
| `FftPaths.InitKeepsTooMany` | core/src/signal_path/iq_frontend.cpp:48-52 | at a million samples a second, 20 FFTs a second of 65536 samples: a window of 50000, the interval, but a period of 65536 |
| `FftPaths.FftPath.Handler` | core/src/signal_path/iq_frontend.cpp:283-307 | every access lies inside its buffer; the window is applied to nzFFTSize samples and fftSize values of the row are written, no other |
| `FftPaths.FftPath.GenerateFFTWindow` | core/src/signal_path/iq_frontend.cpp:311-327 | nzFFTSize weights with alternating sign, and the noise gain that belongs to them, while the sink has no worker |
| `FftPaths.NoisePowerIs` | core/src/signal_path/iq_frontend.cpp:311-327 | the noise power is the sum of the squared weights: the number of samples for a rectangular window, never negative |
| `FftPaths.FftPath.AllocatePlan` | core/src/signal_path/iq_frontend.cpp:343-347 | a plan of fftSize whose input is zero from nzFFTSize on, while the sink has no worker |
| `FftPaths.FftPath.UpdateFFTPath` | core/src/signal_path/iq_frontend.cpp:329-355 | whatever brackets are open: window, plan and row fit the sizes afterwards, the reshaper keeps what the window takes and its period is right, both workers are as before, and nothing the handler uses changed under it |
| `FftPaths.FftPath.SetFFTSize` | core/src/signal_path/iq_frontend.cpp:193-213 | the size is changed while the sink is stopped; afterwards everything fits, the row too, and the period is right |
| `FftPaths.FftPath.SetFFTRate` | core/src/signal_path/iq_frontend.cpp:215-221 | a rate below 1 becomes 1; afterwards everything fits and the period is right |
| `FftPaths.FftPath.SetFFTWindow` | core/src/signal_path/iq_frontend.cpp:223-226 | the window is rebuilt for the new kind; everything fits and the period is right |
| `FftPaths.FftPath.SetSampleRate` | core/src/signal_path/iq_frontend.cpp:79-107 | the DC blocker and the VFOs are told the new effective rate while their workers are held back, the branch is rebuilt for it, everything fits, and every block is as it was |
| `FftPaths.FftPath.Hold` | core/src/signal_path/iq_frontend.cpp:81-84 | every block is held back by its own bracket, whatever brackets are open, and closing it will restore it |
| `FftPaths.FftPath.Release` | core/src/signal_path/iq_frontend.cpp:102-105 | closing the brackets, one block after the other |
| `AutoSave.Earliest` | core/src/config.cpp:69-71 | the first position of the least due time |
| `AutoSaveTheorems.NoLostUpdate` | core/src/config.cpp:32-100 | enabling and disabling one at a time: in every reachable state an unsaved change has its job queued, in the worker's hands, or a thread on its way to queue it |
| `AutoSaveTheorems.RestingIsSaved` | core/src/config.cpp:60-100 | once everything is at rest the last snapshot saved contains every edit up to the last release(true) |
| `AutoSaveTheorems.AttachedIsSaved` | core/src/config.cpp:32-100 | in every run, racing calls included: at rest with autosave on, a job that has its back pointer is saved up to the last release(true) |
| `AutoSaveTheorems.UnsavedIfDetached` | core/src/config.cpp:32-43 | in every run, racing calls included: from any state with autosave on and nobody switching it, after any moves with a release(true) that leave it on, at rest the update is unsaved if and only if the back pointer was null, and then nothing has been saved since |
| `AutoSaveTheorems.StaysOn` | core/src/config.cpp:312-345 | while autosave stays on no step changes the back pointer, and with a null one none saves or loses the mark |
| `AutoSaveTheorems.RaceLosesUpdate` | core/src/config.cpp:312-325 | a concrete run in which enable races disable and an update is lost |
| `AutoSaveTheorems.NoUseAfterDestroy` | core/src/config.cpp:77-97 | in every run, racing calls included, the worker and the threads never touch a destroyed manager |
| `AutoSaveTheorems.DeadStaysDead` | core/src/config.cpp:119-124 | after the destructor no step changes the manager or attaches its job again |
| `AutoSaveTheorems.NoCyclicWait` | core/src/config.cpp:32-98 | waiting for the queue's mutex or a job's goes strictly downhill, the worker included, and who holds a manager's mutex waits for nothing |
| `AutoSaveTheorems.WaitingEnds` | core/src/config.cpp:32-98 | a thread in an operation, or the worker awake, that cannot step waits for somebody who can, or who waits for somebody who can |
| `AutoSaveTheorems.NeverOversleeps` | core/src/config.cpp:64-75 | the worker never sleeps past a due job |
| `AutoSaveTheorems.AskPushesBack` | core/src/config.cpp:32-43 | every enqueue of a job with a manager, by a thread or by a retry, makes it due a second from then, listed already or not, lists it unless it is marked, and wakes the worker; nothing else sets the time |
| `AutoSaveTheorems.DueIsLastAsk` | core/src/config.cpp:37 | over any moves a job is due exactly a second after its last enqueue |
| `AutoSaveTheorems.PoppedIsQuiet` | core/src/config.cpp:69-80 | in every run, when the worker takes a job out of the list nobody has enqueued it within the last second |
| `AutoSaveTheorems.OneSaveForABurst` | core/src/config.cpp:32-98 | within a second of an enqueue nothing is saved that the worker was not already serving, so enqueues less than a second apart give one save |
| `AutoSaveTheorems.SavesExactly` | core/src/config.cpp:85-92 | a step saves, the whole configuration, and clears the mark, if and only if it is the worker's under the manager's mutex with autosave on and a change marked |
| `AutoSaveTheorems.SavesInTheEnd` | core/src/config.cpp:60-100 | progress: from every reachable state with no client inside an operation, whatever the worker is doing, its own steps save an unsaved change of an attached job with autosave on, as time passes |
| `AutoSaveTheorems.CallDoes` | core/src/config.cpp:312-329 | acquire takes the mutex; enable and disable set the flag and go on only if they changed it; the destructor always cancels; nothing else changes |
| `AutoSaveTheorems.ReleaseDoes` | core/src/config.cpp:331-345 | release marks a modified configuration, enqueues its job exactly if autosave is on when the flag is read after that, and gives the mutex back before it enqueues |
| `AutoSaveTheorems.SleepEnds` | core/src/config.cpp:65-75 | a sleeping worker can wake at any time and looks at the list again |
| `AutoSaveTheorems.CancelDoes` | core/src/config.cpp:45-57 | cancel leaves no copy in the list, then neither mark nor manager, and the worker awake; the destructor's last one ends the manager's life |
| `AutoSaveInvariant.SteppedKeepsCover` | core/src/config.cpp:32-57 | whatever calls race, every region of enqueue, cancel, enable and release keeps an unsaved change of an attached job covered or being cancelled |
| `AutoSaveInvariant.WorkedKeepsCover` | core/src/config.cpp:77-98 | so does every step of the worker, which locks the manager of an attached job only |
| `AutoSaveInvariant.SwitchedIsCovered` | core/src/config.cpp:312-325 | without races a manager with autosave on keeps its back pointer, or a thread is about to set it |
| `AutoSaveInvariant.SteppedKeepsMutex` | core/src/config.cpp:327-345 | every region of a thread keeps the manager's mutex with its owner |
| `AutoSaveInvariant.WorkedKeepsMutex` | core/src/config.cpp:84-91 | the worker takes the manager's mutex only when it is free and gives it back |
| `AutoSaveInvariant.SteppedKeepsDead` | core/src/config.cpp:45-57 | no region of a thread attaches or locks a dead manager |
| `AutoSaveInvariant.WorkedKeepsRest` | core/src/config.cpp:64-92 | snapshots stay prefixes of the configuration, and sleeping stays justified |
| `SaveWorkers.ConfigManager.Enable` | core/src/config.cpp:312-319 | the flag is set, and the call goes on exactly if it was clear |
| `SaveWorkers.ConfigManager.Disable` | core/src/config.cpp:322-325 | the flag is cleared, and the call goes on exactly if it was set |
| `SaveWorkers.ConfigManager.Release` | core/src/config.cpp:331-345 | a modified configuration is marked, and the job is to be queued exactly if autosave is on |
| `SaveWorkers.ConfigSaveWorker.Enqueue` | core/src/config.cpp:32-43 | nothing for a detached job; otherwise it is due a second from now, listed already or not, and added to the list exactly if it was not marked; as the transition system's region |
| `SaveWorkers.ConfigSaveWorker.Unlist` | core/src/config.cpp:46-50 | every copy of the job leaves the list, in the transition system too |
| `SaveWorkers.ConfigSaveWorker.Detach` | core/src/config.cpp:51-55 | the job loses its manager and its mark, in the transition system too |
| `SaveWorkers.ConfigSaveWorker.MinElement` | core/src/config.cpp:69-71 | the loop finds the first least due time |
| `SaveWorkers.ConfigSaveWorker.NextTurn` | core/src/config.cpp:64-80 | sleeping exactly if the list is empty, sleeping until a time that has not come, or taking out one job whose time has come: as the transition system's step |
| `SaveWorkers.ConfigSaveWorker.ServeJob` | core/src/config.cpp:82-98 | the whole configuration is saved and the mark cleared exactly if the job is attached, the manager free, autosave on and a change marked; a retry exactly if the manager is busy |
| `SaveWorkers.ServedIsWorked` | core/src/config.cpp:82-98 | that is what the worker's single steps come to |
| `SaveWorkers.Boot` | core/src/config.cpp:116-118 | any number of managers and the worker, as constructed, are in the first state of the transition system |
| `Lists.Remove` | core/src/config.cpp:46-50 | std::remove and erase keep the other elements in their order |
| `DrawListWire.LoadStored` | core/src/gui/smgui.cpp:261-377 | loading the stored bytes gives the list back, whatever follows in memory |
| `DrawListWire.RoundTripExactly` | core/src/gui/smgui.cpp:261-377 | that holds if and only if every string is shorter than 65536 bytes |
| `DrawListWire.ItemLayout` | core/src/gui/smgui.cpp:324-362 | the bytes of every kind of item, one by one |
| `DrawListWire.OverrunExactly` | core/src/gui/smgui.cpp:261-293 | loadItem reads past the end if and only if the item is cut by exactly one byte |
| `DrawListWire.LoadStoredItem` | core/src/gui/smgui.cpp:261-362 | one item is loaded back from its bytes, using exactly them |
| `Widgets.ArityAgrees` | core/src/gui/smgui.cpp:71-222 | draw passes exactly as many arguments as validate has checked, for every step byte |
| `Widgets.RecordedReadsBack` | core/src/gui/smgui.cpp:502-834 | what a widget function pushes is typed as its step wants, and draw reads the very call back |
| `Widgets.StepOfWidgetAt` | core/src/gui/smgui.cpp:71-222 | a call read from checked arguments has the step it was stored under |
| `Widgets.TakesSyncExactly` | core/src/gui/smgui.cpp:502-834 | the twelve calls that take the sync flag, by their codes |
| `Widgets.ValidatesIsTyped` | core/src/gui/smgui.cpp:424-485 | a list that validates is made of steps with arguments of their types, in one way only |
| `Widgets.TypedValidates` | core/src/gui/smgui.cpp:424-485 | every such list validates |
| `Widgets.SplitJoinedItems` | core/src/gui/smgui.cpp:519-535 | the items of a combo box survive being joined with NULs |
| `Replay.SkipLandsOnStep` | core/src/gui/smgui.cpp:71-222 | skipping a closed popup or table ends at a step or at the end of the list |
| `Replay.SkipsOwnBracket` | core/src/gui/smgui.cpp:71-222 | it ends behind its own end step if and only if no bracket of its kind opens inside |
| `Replay.PlayIsBracketed` | core/src/gui/smgui.cpp:71-222 | without nesting, draw issues exactly the calls outside closed popups and tables |
| `Replay.PlayGoesOn` | core/src/gui/smgui.cpp:168-194 | after a closed popup drawing goes on behind the next end of a popup, after a closed table behind the next end of a table, or ends; behind every other call, and every open one, with the next call |
| `Replay.ShowIssues` | core/src/gui/smgui.cpp:71-222 | a code of the enumeration is issued once, any other not; a button is filled exactly if the step before asked for it |
| `Replay.ShowReports` | core/src/gui/smgui.cpp:62-222 | exactly the nine widgets with a value or a button report, under their name and flag, with the type and value that the user left; an untouched call changes nothing |
| `Replay.IssuedSteps` | core/src/gui/smgui.cpp:71-222 | draw makes for each code of a checked list the call that records that code, and leaves out exactly the codes outside the enumeration |
| `Replay.OpenPlayIssuesAll` | core/src/gui/smgui.cpp:71-222 | with all of them open, draw issues every recorded call in order, and the codes that record what it issues are those of the list |
| `Replay.PlayTyped` | core/src/gui/smgui.cpp:71-222 | a drawn list validates again, with the same steps, whatever the user did |
| `Replay.AnswerRoundTrip` | core/src/gui/smgui.cpp:502-834 | a pressed widget's difference makes the server's call of that widget return true with the value the client shows |
| `Replay.OnlyTheNamed` | core/src/gui/smgui.cpp:502-834 | a widget function returns true, and changes its value, exactly for a difference with its name and the type of its value; what opens something always does; all others never |
| `Replay.OthersDoNotAnswer` | core/src/gui/smgui.cpp:502-834 | when one widget was pressed, the calls of all widgets with other names return false |
| `Replay.RecordStoreLoad` | core/src/gui/smgui.cpp:261-485 | recording any callable widgets gives a list that validates and parses to those calls; its bytes load back if and only if the strings are short |
| `DrawLists.DrawList.GetSize` | core/src/gui/smgui.cpp:388-397 | the loop adds up the sizes that store writes |
| `DrawLists.DrawList.Store` | core/src/gui/smgui.cpp:364-377 | the bytes of the list and their number, or -1 if they do not fit |
| `DrawLists.DrawList.Load` | core/src/gui/smgui.cpp:295-322 | the elements read, and the bytes consumed exactly if the list is complete and validates |
| `DrawLists.DrawList.CheckTypes` | core/src/gui/smgui.cpp:399-419 | true exactly if that many elements of these types follow |
| `DrawLists.DrawList.Validate` | core/src/gui/smgui.cpp:424-485 | true exactly on the lists that are sequences of typed steps |
| `DrawLists.DrawList.Advance` | core/src/gui/smgui.cpp:71-222 | from the end of a step the cursor comes to the next step to draw, over closed brackets too |
| `DrawLists.DrawList.DrawOne` | core/src/gui/smgui.cpp:71-222 | one turn of the loop draws one call, puts the answer in place and leaves the cursor at a step |
| `DrawLists.DrawList.Draw` | core/src/gui/smgui.cpp:71-222 | on a validated list every argument read is there and of its type, the loop ends, and calls, answers and difference are those of the interpreter |
| `Recorders.Recorder.Call` | core/src/gui/smgui.cpp:502-834 | a widget call appends its step and arguments, takes the sync flag if it is one that does, and returns the difference addressed to it |
| `Recorders.Recorder.CallAll` | core/src/gui/smgui.cpp:502-834 | a frame appends the elements of its calls in order, the sync flag at the first that takes it |
| `RemoteMenus.ShowFrame` | core/src/gui/smgui.cpp:57-485 | end to end: recorded, stored, loaded, validated and drawn, the client issues the recorded calls minus the insides of closed brackets, and all of them if none is closed |
| `UrlCodec.EscapeIsText` | core/src/EmbeddableWebServer.h:543-565 | the escaped text holds no NUL, no & and no +, and is at most three times as long |
| `UrlCodec.DecodedIsNoLonger` | core/src/EmbeddableWebServer.h:655-728 | the decoder writes no more than it reads, stays inside its capacity, and never fails with one byte more than the text |
| `UrlCodec.DecodeEscape` | core/src/EmbeddableWebServer.h:655-728 | decoding an escaped text, from any output so far and in both kinds: the text as far as there is room, success if and only if there is enough |
| `UrlCodec.UrlRoundTrip` | core/src/EmbeddableWebServer.h:543-728 | the same for the C string that the encoder returns, for every capacity |
| `UrlCodec.EscapeOfOne` | core/src/EmbeddableWebServer.h:543-565 | letters, digits, dot, slash and hyphen stay as they are; every other byte becomes a percent sign and its two digits in small letters |
| `UrlCodec.DecodePlain` | core/src/EmbeddableWebServer.h:655-728 | text without percent signs is taken as it is, but for plus signs, which become spaces |
| `UrlCodec.DecodeStops` | core/src/EmbeddableWebServer.h:655-728 | a parameter ends at the first ampersand whatever follows; a whole URL goes on |
| `UrlCodec.DecodeTriple` | core/src/EmbeddableWebServer.h:683-714 | a percent sign and two bytes give the byte that sscanf makes of them, or nothing |
| `UrlCodec.HeapString.Append` | core/src/EmbeddableWebServer.h:765-800 | the value grows by the text and stays terminated, whether or not it had to move |
| `UrlCodec.EscapeForUrl` | core/src/EmbeddableWebServer.h:543-565 | the loop gives the escaped text, and a null pointer exactly for the empty one |
| `UrlCodec.UrlDecode` | core/src/EmbeddableWebServer.h:655-728 | the loop gives the decoded text terminated inside the buffer, touches nothing behind it, and reports whether all fitted |
| `HttpRequests.FeedKeepsOk` | core/src/EmbeddableWebServer.h:1330-1489 | every byte keeps every buffer and pool string in bounds, and a header is read only while there is room for one |
| `HttpRequests.PathAlwaysDecodes` | core/src/EmbeddableWebServer.h:1346-1351 | the decoding that the code asserts to succeed always does |
| `HttpRequests.FragmentsDoNotMatter` | core/src/EmbeddableWebServer.h:1330-1489 | feeding two stretches of bytes one after the other is feeding them joined; that the object does so is ReceiveAny |
| `HttpRequests.HeaderKeepsOk` | core/src/EmbeddableWebServer.h:1373-1412 | name and value bytes keep every pool string before the offset |
| `HttpRequests.SameIgnoringCaseExactly` | core/src/EmbeddableWebServer.h:466-474 | names are the same if and only if they have the same length and differ at most between capital and small letters |
| `HttpRoundTrip.FeedLine` | core/src/EmbeddableWebServer.h:1373-1433 | a header line adds exactly its field to the table and the pool |
| `HttpRoundTrip.FieldInPool` | core/src/EmbeddableWebServer.h:935-965 | the i-th name and value lie at their places, each with a NUL behind |
| `HttpRoundTrip.HeaderFound` | core/src/EmbeddableWebServer.h:466-474 | for any name, the lookup over the pool finds the first field of that name in the message, in any case, and none if there is none |
| `HttpRoundTrip.FeedBody` | core/src/EmbeddableWebServer.h:1472-1481 | the body is taken byte by byte and the request is done with its last one |
| `HttpRoundTrip.ParseInvertsPrint` | core/src/EmbeddableWebServer.h:1330-1489 | for every message within the limits, parsing what was printed gives the request back and no warning |
| `HttpRoundTrip.DoneWithTheLastByte` | core/src/EmbeddableWebServer.h:1330-1489 | done with the last byte and not before, unless a body of length 0 was announced, which waits for one byte more |
| `HttpRoundTrip.BodyRecovered` | core/src/EmbeddableWebServer.h:1434-1481 | a message whose first Content-Length field reads as n, from 1 to the limit, and that has n bytes of body is recovered whole and done with exactly its last byte |
| `HttpRoundTrip.ParsedIsReadable` | core/src/EmbeddableWebServer.h:178-214 | what a program reads: method, path, version, body, every name and value, terminated, apart and in order |
| `HttpFields.LineExactly` | core/src/EmbeddableWebServer.h:1373-1412 | a header line brings its field and nothing else if and only if neither its name nor its value is empty |
| `HttpFields.NothingNew` | core/src/EmbeddableWebServer.h:1396-1403 | a line without a name or without a value brings no field |
| `HttpFields.EmptyValueMerges` | core/src/EmbeddableWebServer.h:1399-1411 | a header line with an empty value is read as the beginning of the next line's name, for all such lines |
| `HttpFields.NamelessOverwrites` | core/src/EmbeddableWebServer.h:1390-1412 | after ': a' the line 'n: b' leaves one header whose value starts before its name and has overwritten it |
| `HttpPools.ApartExactly` | core/src/EmbeddableWebServer.h:935-965 | for arbitrary bytes: no two strings in the pool share a byte if and only if no byte was appended to a value that lies before its own name |
| `HttpPools.FeedIsTidy` | core/src/EmbeddableWebServer.h:1330-1489 | every byte that does not do that keeps the strings apart and the last one at the offset |
| `HttpPools.OverwritingOverlaps` | core/src/EmbeddableWebServer.h:1405-1411 | the byte that does makes the value reach into the name |
| `HttpPools.OverlapStays` | core/src/EmbeddableWebServer.h:1330-1489 | strings that overlap stay overlapping |
| `HttpLimits.MethodKept` | core/src/EmbeddableWebServer.h:1334-1345 | of a method of any length the first 63 bytes are kept, with a warning exactly if there were more |
| `HttpLimits.PathKept` | core/src/EmbeddableWebServer.h:1346-1360 | of a path the first 1023, likewise |
| `HttpLimits.VersionKept` | core/src/EmbeddableWebServer.h:1361-1372 | of a version the first 15, likewise |
| `HttpLimits.StringByteKept` | core/src/EmbeddableWebServer.h:935-965 | a byte for a string lies at the string's end, or is lost with a warning exactly if the end of the pool has been reached |
| `HttpLimits.HeaderByteKept` | core/src/EmbeddableWebServer.h:1373-1412 | a byte of a name goes to the name of the header that is read, one of a value to its value, and a warning stays |
| `HttpLimits.LineReadOrEaten` | core/src/EmbeddableWebServer.h:1317-1327 | a line is read while fewer than 64 headers have been found and the pool is not exhausted, otherwise eaten, with a warning for too many |
| `HttpLimits.Eaten` | core/src/EmbeddableWebServer.h:1466-1471 | an eaten line changes nothing up to its end |
| `HttpLimits.StrayReturn` | core/src/EmbeddableWebServer.h:1414-1464 | a carriage return without a line feed begins a line of its own and changes no header |
| `HttpLimits.BehindTheBody` | core/src/EmbeddableWebServer.h:1482-1489 | bytes behind a body change nothing but the warning, which is raised exactly if a body was announced |
| `HttpParsers.RequestParser.constructor` | core/src/EmbeddableWebServer.h:178-214 | a zeroed request |
| `HttpParsers.RequestParser.PoolStringStartNewString` | core/src/EmbeddableWebServer.h:935-955 | where the string starts, or a null pointer and a warning |
| `HttpParsers.RequestParser.PoolStringAppendChar` | core/src/EmbeddableWebServer.h:957-965 | one byte at the string's end, inside the pool, or a warning |
| `HttpParsers.RequestParser.DecodePath` | core/src/EmbeddableWebServer.h:1346-1351 | the decoded path in its buffer; the assertion holds |
| `HttpParsers.RequestParser.HeaderNameIfSpaceLeft` | core/src/EmbeddableWebServer.h:1317-1327 | the next line is read, or eaten with a warning |
| `HttpParsers.RequestParser.HeaderInRequest` | core/src/EmbeddableWebServer.h:466-474 | the first header of any given name, in any case, or none |
| `HttpParsers.RequestParser.OnEndOfHeaders` | core/src/EmbeddableWebServer.h:1434-1464 | done, or a body of the announced length, bounded |
| `HttpParsers.RequestParser.ParseByte` | core/src/EmbeddableWebServer.h:1330-1489 | one turn of the loop is one byte of the specification, or a replay that leaves it the same |
| `HttpParsers.RequestParser.RequestParse` | core/src/EmbeddableWebServer.h:1330-1489 | the loop with its replay ends, and does to the request what the bytes of the fragment do one by one |
| `HttpParsers.ReceiveAny` | core/src/EmbeddableWebServer.h:1330-1489 | arbitrary bytes in any fragments leave the object as the same bytes fed one by one to a fresh request |
| `HttpParsers.Receive` | core/src/EmbeddableWebServer.h:1330-1489 | a printed message in any fragments is recovered, and done with the last one unless an empty body was announced |
| `Gradients.ColorRoundTrip` | core/src/gui/theme_manager.cpp:650-668 | a written colour can be read, to the nearest of 256 steps, and is written the same again |
| `Gradients.ColorComesBack` | core/src/gui/theme_manager.cpp:650-668 | a colour with channels from 0 to 1 comes back with every channel within half a step of 255 |
| `Gradients.RoundedTwice` | core/src/gui/theme_manager.cpp:137-139 | rounding twice is rounding once if and only if the value is greater than -0.0015 |
| `Gradients.RoundedIsNear` | core/src/gui/theme_manager.cpp:137-139 | a value that is not negative is rounded to the nearest thousandth |
| `Gradients.RoundedStaysInRange` | core/src/gui/theme_manager.cpp:137-139 | rounding keeps a value between ends with three decimals |
| `Gradients.StableSortSorts` | core/src/gui/theme_manager.cpp:28-38 | the sorted stops are the same stops, in order, and equal positions keep their order |
| `Gradients.StableSortKeeps` | core/src/gui/theme_manager.cpp:28-38 | stops in order stay as they are |
| `Gradients.GradientRoundTrip` | core/src/gui/theme_manager.cpp:69-106 | stops whose written positions are between 0 and 1 and in order are read back sorted and in range, and are written the same again |
| `Gradients.GradientExactly` | core/src/gui/theme_manager.cpp:69-106 | for any list of stops: written, read and written again it is the same if and only if there are stops and the written positions are between 0 and 1 and in order |
| `Gradients.GradientComesBack` | core/src/gui/theme_manager.cpp:69-106 | as many stops come back in the same order, each at its place to the nearest thousandth and in its colour to half a step |
| `Gradients.SampleGradient` | core/src/gui/theme_manager.cpp:40-61 | for stops in any order: the two that are mixed enclose the position, the division is never by zero, and the colour lies between theirs in every channel |
| `Gradients.MixedByChannel` | core/src/gui/theme_manager.cpp:40-61 | each channel of the mixed colour is that part of the way between the same channels of the two stops |
| `Themes.BuiltinIsGood` | core/src/gui/theme_manager.cpp:109-132 | the built-in choices, sliders and gradient meet what the theorems ask of the tables, with any colours whose names are free |
| `Themes.BuiltinDefaults` | core/src/gui/theme_manager.cpp:109-132 | an empty document leaves solid lines and filling, the intensities 1 and 0.2, and the built-in gradient |
| `Themes.BuiltinGradient` | core/src/gui/theme_manager.cpp:109-132 | the stops of that gradient as they are written |
| `Themes.LowerExactly` | core/src/gui/theme_manager.cpp:155-165 | options are compared with capital letters made small and nothing else changed |
| `Themes.SliderExactly` | core/src/gui/theme_manager.cpp:416-483 | a slider is written, read and written the same if and only if it is written within its ends |
| `Themes.SliderPastItsEnd` | core/src/gui/theme_manager.cpp:416-483 | a trace intensity of 2 is written as 2 and comes back as 1 |
| `Themes.KeyRoundTrip` | core/src/gui/theme_manager.cpp:386-488 | what is written at a key is read so that it is written the same again: always for texts, colours and choices; for a slider if and only if it was written within its ends; for the gradient as above |
| `Themes.DumpApplyDump` | core/src/gui/theme_manager.cpp:386-488 | for any live values: writing them, applying that and writing again gives the same document if and only if every slider is written within its ends and the gradient's written positions are between 0 and 1 and in order |
| `Themes.DumpSays` | core/src/gui/theme_manager.cpp:464-488 | the saved document names the option that each choice holds, or the one at the end it has passed, holds each colour to half a step of 255 and each slider to the nearest thousandth, every stop, and nothing else |
| `Themes.SavedComesBack` | core/src/gui/theme_manager.cpp:386-488 | selecting it brings back every choice whose options differ, every colour within half a step, every slider within its ends to the nearest thousandth, and the colour map |
| `Themes.SavedGradientComesBack` | core/src/gui/theme_manager.cpp:69-106 | and every stop of a sorted gradient, in order, at its place to the nearest thousandth and in its colour to half a step |
| `Themes.GoodIsReadable` | core/src/gui/theme_manager.cpp:386-448 | what applying a document leaves always is |
| `Themes.AppliedIsGood` | core/src/gui/theme_manager.cpp:386-448 | whatever a document holds, applying it leaves values in range and a sorted gradient |
| `Themes.CleanedTwice` | core/src/gui/theme_manager.cpp:313-370 | a cleaned value stays as it is when it is cleaned again |
| `Themes.CleanedExactly` | core/src/gui/theme_manager.cpp:313-370 | what cleaning keeps of a value under each kind of key: names and authors always, what can be read of the others, and nothing under an unknown key |
| `Themes.SanitizeIsIdempotent` | core/src/gui/theme_manager.cpp:313-370 | cleaning a document twice is cleaning it once |
| `Themes.SanitizeKeepsTheLook` | core/src/gui/theme_manager.cpp:313-448 | applied, a cleaned document is written the same as the original |
| `Themes.ThemeManager.NormalizeGradient` | core/src/gui/theme_manager.cpp:28-38 | never empty, in range and sorted; a gradient in range is only sorted |
| `Themes.ThemeManager.SetGradient` | core/src/gui/theme_manager.cpp:99-106 | a list that cannot be read leaves the gradient alone |
| `Themes.ThemeManager.ResetToDefaults` | core/src/gui/theme_manager.cpp:373-384 | every value is that of an empty document |
| `Themes.ThemeManager.ApplyThemeData` | core/src/gui/theme_manager.cpp:386-448 | the live values are those of the document and of nothing before it |
| `Themes.ThemeManager.DumpLiveTheme` | core/src/gui/theme_manager.cpp:464-488 | the document has exactly the keys and values that are written for the live values |
| `Themes.ThemeManager.SanitizeThemeData` | core/src/gui/theme_manager.cpp:313-370 | exactly the values that are understood stay, each cleaned |
| `Themes.ThemeManager.SaveSelectSave` | core/src/gui/theme_manager.cpp:386-488 | saving, selecting and saving again gives the same document exactly then, and doing it once more always does |
| `Bpsk.DecisionThreshold` | core/libcorrect/util/error-sim.c:63-88 | a symbol is decided 1 if and only if its voltage is at least a 255th of the amplitude |
| `Bpsk.SoftScale` | core/libcorrect/util/error-sim.c:78-90 | the range from -v to v is spread evenly over 0 to 255, cut off to whole numbers, and ends there |
| `Bpsk.BitsFromTheTop` | core/libcorrect/util/error-sim.c:41-50 | the k-th bit counts from the top |
| `Bpsk.NoiseMargin` | core/libcorrect/util/error-sim.c:41-88 | a symbol is decided as sent if and only if the noise is at least -254/255 of the amplitude for a 1, or less than 256/255 of it for a 0 |
| `Bpsk.SymmetricMargin` | core/libcorrect/util/error-sim.c:111-125 | noise of at most 254/255 of the amplitude to either side is tolerated |
| `Bpsk.EncodeBpsk` | core/libcorrect/util/error-sim.c:41-50 | the turning mask picks the bits in order |
| `Bpsk.AddNoise` | core/libcorrect/util/error-sim.c:111-125 | each symbol gets its own noise |
| `Bpsk.DecodeSoft` | core/libcorrect/util/error-sim.c:77-88 | the loop gives the soft symbol of every voltage |
| `Bpsk.DecodeHard` | core/libcorrect/util/error-sim.c:63-75 | the turning mask sets exactly the bits decided 1 and clears none |
| `Bpsk.Channel` | core/libcorrect/util/error-sim.c:41-125 | into a zeroed buffer the sent bits are received if and only if the noise on every symbol is tolerated |
| `PolySearch.CandidatesExactly` | core/libcorrect/tools/find_conv_optim_poly.c:146-148 | what is enumerated is exactly the odd coefficients with the top bit set if and only if the order is from 2 to 16: order 1 has the one coefficient 2, and beyond 16 the start wraps to 1 |
| `PolySearch.Coefficients` | core/libcorrect/tools/find_conv_optim_poly.c:146-148 | the coefficients enumerated for an order are start, start + 2 and so on, as many as the code counts, and no 2 can be added exactly to the last |
| `PolySearch.ValueDetermines` | core/libcorrect/tools/find_conv_optim_poly.c:162-177 | vectors with the same number are the same |
| `PolySearch.NextCounts` | core/libcorrect/tools/find_conv_optim_poly.c:167-176 | adding 2 with carry counts up by one in base num_polys, and from the last vector to the first |
| `PolySearch.AddTwo` | core/libcorrect/tools/find_conv_optim_poly.c:167-176 | the loop does that in place |
| `PolySearch.Enumerate` | core/libcorrect/tools/find_conv_optim_poly.c:146-177 | for every order from 1 to 30 the i-th candidate is i written in base num_polys |
| `PolySearch.EachExactlyOnce` | core/libcorrect/tools/find_conv_optim_poly.c:162-177 | every vector of enumerated coefficients is a candidate at exactly one place |
| `PolySearch.Tournament` | core/libcorrect/tools/find_conv_optim_poly.c:180-242 | the loop keeps the best-ranked prefix round by round; it ends with 20 of the candidates when it starts with more, in at most k rounds for up to 20 times 2 to the k of them, and in one once the message is as long as it gets |
| `PolySearch.RoundKeeps` | core/libcorrect/tools/find_conv_optim_poly.c:207-228 | one round: the message doubles up to its longest, the best-ranked half goes on, but never fewer than 20, and just 20 after a message of that length |
| `PolySearch.BestSurvive` | core/libcorrect/tools/find_conv_optim_poly.c:128-131 | the winners are candidates, and against each winner a dropped candidate was no cheaper in some round; with fixed costs the winners are the cheapest |

## Left out

- PipelineDelivery.DeliveredInOrder: streams carry one element type and blocks have one input and one output; `dsp::Operator`, whose second input reaches the abort in `registerInput`, is not modelled
- PipelineInvariant.NextKeepsInv: memory is sequentially consistent, and `process` loads all samples of a frame before it stores the first of its own, so finer interleavings inside `process` are not modelled; rewiring is the subject of the chain, not of the pipeline
- Streams.Stream.LeaveRead: the check for buffers already freed, `setBufferSize` and the debug hooks are not modelled
- Blocks.Processor.DoStop: that the worker leaves once its stream was told to stop is proved in PipelineTermination.StopTerminates and asked for here; the stop flags themselves are not part of the chain's model
- Chains.Chain.EnableBlock: frames left in the output of a disabled block, which the next reader of that stream gets, are not tracked; start and stop of a block are made outside brackets; a block that is added is not started, is not the consumer, and does not feed the chain's input; no worker outside the chain and its consumer is considered
- Chains.Chain.AddBlock: exceptions are a false result
- FftPaths.FftPath.SetSampleRate: of the DC blocker and the VFOs the model has the brackets and the rate they are told, not what they make of it, nor the brackets inside their setters; the event to listeners and the detector are not modelled; sample rates are not negative and FFT rates at least 1, as `setFFTRate` makes them
- FftPaths.FftPath.Handler: the FFT itself and the power spectrum are not modelled, the frame's buffer is at least as long as the window, and the row is the waterfall's current one
- AutoSaveTheorems.NoLostUpdate: a configuration is the list of edits made to it, saving appends nothing but its snapshot (the file, its temporary name and JSON text are not modelled), managers exist from the start, a thread that holds a manager makes no other call (so the order in which clients acquire several managers is theirs), and time counts in ticks; there is no bound on the delay of a save, as repeated releases push it back
- SaveWorkers.ConfigSaveWorker.ServeJob: the object form puts the region under the job's mutex in one step; the transition system takes it apart
- Replay.AnswerRoundTrip: floats are 32-bit patterns; ImGui's own effects, the 4096-byte buffer of InputText and the log text of validate are not modelled; memory is little-endian
- DrawLists.DrawList.Load: asks that the memory covers what loadItem reads; DrawListWire.OverrunExactly says when it would not
- Recorders.Recorder.Call: the pushes of the 31 widget functions are one table of arguments; that Columns replaces a null id and that PopStyleColor stores its count as a float is not visible in it
- UrlCodec.UrlDecode: of sscanf the model knows only what it makes of two hexadecimal digits; capacity 0 is excluded, as the code's subtraction asks of its callers
- HttpRoundTrip.ParseInvertsPrint: of sscanf for numbers nothing is asked at all, so the length is whatever it makes of the value; sockets, connections and responses are not modelled
- HttpParsers.RequestParser.OnEndOfHeaders: an allocation that fails is not modelled
- Themes.DumpApplyDump: the keys of the colours, choices and sliders are a table given from outside, floats are reals, runtime ids of stops, file names, files and the map of registered themes are not modelled
- Bpsk.Channel: voltages are reals and the factor of the square root of 2 is part of the noise; the noise generator and the decoders are not modelled
- PolySearch.Enumerate: orders from 1 to 30, within which the shifts of an int are defined; the number of candidates and the length of the message are unbounded
- The tuner, modules, VFOs, sinks, network servers, drawing and the other services of the repository are not modelled
