# An FSM kernel, its messages, a DNS client and a test tree

The repository has a kernel for communicating automata (`Kernel/`), a DNS client of three automata built on it
(`POP3ClientCppUnit/`) and a vendored CppUnit. This project models the five parts of it with the strongest
properties and proves them with Dafny. `dafny verify dfyconfig.toml` checks everything.

## Buffers, mailboxes and timers

`Buffers`, `Timeline`, `KernelSpec`, `KernelSafety`, `KernelShutdown`, `KernelRuns`, `KernelTimers`, `KernelSemaphores`,
`BufferLists`, `BufferClasses`, `KernelStore`, `Kernels`, `FsmTimers`.

`KernelSpec` is the kernel as a state machine on values: where every buffer is, the contents of free lists and
mailboxes, what each semaphore has seen, every buffer's message code, and the timers told in absolute time
(`Timeline`). One step is one locked
section of the source. `KernelSafety` proves that every step keeps the invariant; `KernelRuns`, `KernelTimers` and
`KernelSemaphores` prove what follows for whole runs, under every interleaving of application threads and timer ticks.
The class `Kernels.Kernel` is the code: one memory of buffer headers through which all lists are threaded by `BUFF_NEXT`, head, tail and count of each list, the
delta list behind a dummy message, the tracking byte of `__BUFFER_PROTECTION__`. Each of its methods relinks buffers
in place and is proved to perform exactly one step of the state machine on its ghost field `s`; `Valid()` ties the
memory to `s`: every list is the chain of buffers that `s` says, every tracking byte names the place, every delta is
the time between two expiries.

Choices. Buffer protection is on. An error of the source (`ThrowError`) is a result that says so, with the state
unchanged. `Get` on an empty free list answers "none" (with asserts off, as the fallback loop of `GetBuffer` expects;
with protection on, the source would then read through a null pointer). `GetBuffer` stops at the last class, where the
source reads one length beyond the table before it looks at the class number. A timer may be started with any count:
the scaled count (an integer division and a 32-bit product, `Buffers.ScaledCountIs`) may be zero, and the decrement of
the tick handler wraps. `KernelTimers` says what that does: the timer goes to the head of the list, and the next tick
posts nothing and puts every timer off by 2^32 ticks (`ZeroCountHoldsUpAll`); over a whole run expiries stay where they
are if and only if no tick comes after such a start (`ScheduleKeptIff`), for instance when no scaled count is zero.
`StartTimer` of a buffer that its caller does not hold is refused by the protection check, but only after count and
mailbox have been written into it; its contract says when that spoils the delta list. Carved memory is taken as zeroed.
An automaton clears a timer's handle when its message arrives (`FsmTimers`, `ValidBut`); between its calls any kernel
steps by others keep its handles, or deliver one of its timers and leave the others.

## Parameter lists

`TlvSpec`, `TlvBytes`, `TlvCodec`, `StandardMessages`, `MessageHandlers`.

The codecs `stdMsg_pc8_pl8` and `stdMsg_pc16_pl16` differ only in the width of code and length, so there is one class,
with the coding as a parameter. It works on byte arrays in place, with the cursor `CurrentOffset`. `Carries` says which
parameter list a message holds; the ghost argument `ps` of the methods names it. The host is little-endian. In pc8 the
second terminator byte is counted but not specified. `AddParam` demands room in the buffer and that code and length
fit their fields; `TlvCodec.CanBeCarried` shows that no message could hold what this shuts out.

## The DNS client

`DnsSpec`, `DnsSafety`, `DnsRuns`, `DnsNames`, `DnsAnswers`, `DnsChannels`, `FsmDispatch`, `DnsAutomata`.

The user, client and channel automata with their FIFO mailboxes as one transition system: a step dispatches the head
of any non-empty mailbox, or is a reply or a disconnect of the server, at any moment and any number of times. Whether
the local table has the name is left open (the step's parameter). `FsmDispatch.Dispatcher` is the table that
`InitEventProc` fills and `GetProcedure` searches; `DnsAutomata.DnsProgram` is the handlers with their fields, proved
to perform the steps of the transition system when dispatched through the tables that `Initialize` builds. Names,
table lines and replies are shorter than 256 bytes, the size of the source's buffers. Timer expiry is not a step.

## XML

`XmlSpec`, `XmlStripping`, `XmlLayout`, `XmlElements`, `XmlUniformisers`, `XmlEquality`.

`XmlElement::toString` prints an element tree; `XmlUniformiser` strips the layout off again. `PrintThen(e, indent,
rest)` is the printed text followed by `rest`, which spares the proofs most regrouping; the class `XmlElement` is
proved to print it by appending piece after piece. `Strip` is the scanner as a recursive function, the class
`XmlUniformiser` the loops that advance its index and append to what is stripped. `XmlLayout` says what becomes of text
that `toString` does not print: comments, processing instructions, blanks inside tags, attributes without a value, a
tag or text at the end of the input. `c < 33` also holds of characters from 128 on where `char` is signed: the constant `CHAR_IS_SIGNED` is left open, so everything holds on both kinds of host. A tag name has
no spaces and no `>` and does not begin with `?` or `!--`, which the scanner takes for other markup; an attribute name
has no spaces, no `>` and no `=`. Values and content are arbitrary.

## Test paths and text

`TestTree`, `TestPaths`, `StringTools`.

Trees of tests with identities, the preorder search, printing and resolving of paths, splitting and wrapping. The code
of `findTestPath` puts the target at the end of the given path and the tests above it at its front; on an empty path
that is the path to the target.

`Options` and `Sequences` are helpers.

## Where code and comments disagree

The model follows the code. `FindParam` is said to leave the cursor at zero when nothing is found; it does if and only
if the message has parameters or the search began at zero (`StaleCursor` is an input on which it does not). `RemoveParam` is said to remove a parameter; it never does.

## Model

| member | source | states |
|---|---|---|
| Buffers.ScaledCountIs | Kernel/timer.cpp:370 | a product that fits in 32 bits is exact; the scaled count is zero exactly when the count is, when the unit is shorter than the tick, or when the product wraps to zero |
| Timeline.StartKeepsInv | Kernel/timer.cpp:192-225 | inserting a timer keeps all timers ordered by expiry and, among equals, by start; none is due earlier than its count says |
| Timeline.CountDownKeepsInv | Kernel/timer.cpp:534 | the decrement, wrapped or not, keeps order and invariant; it moves an expiry exactly when it finds a count of zero at the head |
| Timeline.AdvanceKeepsInv | Kernel/timer.cpp:532-534 | a tick brings every timer one tick nearer and passes none by, given that no timer was overdue |
| Timeline.PostHeadKeepsInv | Kernel/timer.cpp:535-550 | posting the due head keeps order, punctuality and that no started timer is lost or posted twice |
| Timeline.PostedExactlyWhenDue | Kernel/timer.cpp:507-554 | between ticks a started timer is pending before its time and posted once, at its time, from then on |
| KernelSpec.MoveKeepsPlaces | Kernel/kernelConsts.h:38-50 | moving one buffer from one list to another leaves every buffer in exactly one place and every list without repetition |
| KernelSpec.FirstFit | Kernel/buffers.cpp:83-103 | the class chosen is long enough and has a free buffer, and every class before it is too short or empty |
| KernelSafety.BeginKeepsInv | Kernel/timer.cpp:351-375 | starting a timer, with any count, keeps the whole invariant; the head becomes due exactly when the count is zero |
| KernelSafety.PostTimerKeepsInv | Kernel/timer.cpp:535-550 | posting an expired timer keeps the whole invariant, semaphore ledger included |
| KernelSafety.PostDueSettles | Kernel/timer.cpp:535-551 | after the loop of the tick handler no timer in the list is due: the head count is at least one |
| KernelSafety.TakeKeepsPlaces | Kernel/mailbox.cpp:263-282 | the discard loop keeps places and ledger, never returns a discarded message, and leaves the mailbox empty when it returns none |
| KernelSafety.StepKeepsInv | Kernel/timer.cpp:192-554 | every step of the application and of the tick handler keeps the invariant: one place per buffer, timers on time, semaphores balanced |
| KernelRuns.Run | Kernel/timer.cpp:192-554 | every reachable state satisfies the invariant; no run changes the set of buffers, classes or mailboxes |
| KernelRuns.RunCountsTicks | Kernel/timer.cpp:507-554 | kernel time is the number of ticks in the run |
| KernelRuns.TickDelivers | Kernel/timer.cpp:507-554 | one tick appends to each mailbox exactly the timers addressed to it that were posted, in that order |
| KernelRuns.TakeFindsFirstLive | Kernel/mailbox.cpp:263-282 | reading returns the first message that is not discarded; the discarded ones before it are back in the free lists of their classes |
| KernelRuns.StepIsFifo | Kernel/mailbox.cpp:151-231 | reading removes a prefix of a mailbox, every other step only appends to it |
| KernelRuns.DeadIsNeverHandedOut | Kernel/mailbox.cpp:263-282 | a discarded message in the timer list or a mailbox is handed to nobody along any run, until it is back in its free list |
| KernelRuns.StoppedTimerIsNeverDelivered | Kernel/timer.cpp:387-430 | a timer stopped, or superseded by RestartTimer, at any moment before its message is dequeued is never delivered, whether still ticking or already queued |
| KernelRuns.StepKeepsLive | Kernel/mailbox.cpp:263-282 | any step but the stopping or restarting of a timer leaves its message on its way and its code as it is, or is a read that hands it out with that code |
| KernelRuns.LiveArrives | Kernel/mailbox.cpp:263-282 | along any run without a stop or restart of it, a message in the timer list or a mailbox keeps its code and is handed out by nothing but a read, which finds this code in it |
| KernelRuns.NewTimerArrives | Kernel/kernelAPI.cpp:87-110 | whatever else happens, a timer started with some code arrives with this code, unless it is stopped or restarted |
| KernelRuns.ZeroCountKeepsBuffer | Kernel/kernelAPI.cpp:87-110 | with a count of zero no timer is started, and the buffer that was taken is in no list any more |
| KernelRuns.StartedTimerKeepsCode | Kernel/timer.cpp:351-418 | so does a timer started in a given buffer with the buffer's code, and the copy made by a restart with the code of the timer that it supersedes |
| KernelRuns.SentMessageArrives | Kernel/kernelAPI.h:316-320 | a message that its holder has given a code and sent becomes the last in its mailbox and, unless discarded, is read there with this code, whatever else happens |
| KernelRuns.TakenAndReturned | Kernel/buffers.cpp:83-121 | a buffer comes from the first class that fits and has one, and nothing else moves; giving it back puts every buffer where it was; none is found exactly when all classes that fit are empty |
| KernelRuns.RunThenDestroy | Kernel/fsmSystem.cpp:311-319 | after any run from start-up, deleting timer, post office and pool leaves each class with all its buffers if and only if the application holds none of them |
| KernelTimers.ScheduleKeptIff | Kernel/timer.cpp:370-374 | over a whole run no expiry is moved if and only if no tick comes after the start of a timer whose scaled count is zero |
| KernelTimers.PositiveCountsKeepSchedule | Kernel/timer.cpp:370-374 | when every scaled count is at least one, no expiry is moved and the head count is never zero between ticks |
| KernelTimers.ZeroCountHoldsUpAll | Kernel/timer.cpp:532-535 | a timer started with count zero goes to the head; the next tick posts nothing, not even timers due on it, and puts every timer off by 2^32 ticks |
| KernelTimers.StartedTimerFires | Kernel/timer.cpp:192-225 | with positive counts, a timer started or restarted with count n is pending until the n-th later tick and is posted exactly on that tick, once, before every timer that comes after it |
| KernelTimers.StartedTimerArrives | Kernel/timer.cpp:507-554 | on that tick its buffer leaves the timer list and is appended to the mailbox it names |
| KernelSemaphores.NoMessageIsStranded | Kernel/postOffice.cpp:85-135 | unless a release was refused at the semaphore's maximum, a non-empty mailbox has a wakeup waiting; empty wakeups are at most the discarded and the directly read messages |
| KernelSemaphores.WakeupsAreConserved | Kernel/postOffice.cpp:85-91 | over a whole run every message that enters a mailbox, posts of the tick handler included, is one that was waited for, is waiting, or was refused; refused are exactly those that came in beyond a count of 10000 |
| KernelSemaphores.SemaphoreCounts | Kernel/postOffice.cpp:85-135 | in every run that reads a mailbox only through GetSync and never has 10000 wakeups pending, semaphore plus empty wakeups equal queue length plus discarded messages; no message is stranded and a discarded one costs at most one empty read |
| KernelShutdown.InitialIsSettled | Kernel/buffersQueue.cpp:75-95 | the state after start-up satisfies the invariant |
| KernelShutdown.DestroyEmpties | Kernel/fsmSystem.cpp:311-319 | after the destruction no buffer is in the timer list or a mailbox, and the application holds what it held |
| KernelShutdown.DestroyReturnsAllButHeld | Kernel/buffersQueue.cpp:223-225 | the free list of each class then lacks exactly the buffers of that class the application still holds |
| BufferLists.LinkLastAppends | Kernel/buffersQueue.cpp:156-164 | linking a buffer behind the tail appends it to the chain |
| BufferClasses.SortClasses | Kernel/buffers.cpp:46-57 | the paired exchange sort, in place: lengths in order, and the pairs of length and count a permutation of the given ones |
| KernelStore.AppendKeepsStore | Kernel/mailbox.cpp:191-231 | marking a held buffer and linking it behind a list makes the memory that of the new state, no other chain touched |
| KernelStore.UnlinkKeepsStore | Kernel/buffersQueue.cpp:134-145 | so does unlinking the head of a list and marking it free |
| KernelStore.SplicedKeepsStore | Kernel/timer.cpp:192-225 | linking a timer into the delta list leaves the timer list chained in the new order and all other lists as they were |
| KernelStore.SplicedKeepsDeltas | Kernel/timer.cpp:192-225 | after the insertion every old timer has its remaining time and order, the new one exactly its count, behind equals |
| KernelStore.WalkStep | Kernel/timer.cpp:203-209 | one round of the search subtracts a delta that is not greater than what is left: no underflow |
| KernelStore.CountDownKeepsDeltas | Kernel/timer.cpp:532-534 | the head count is zero exactly when its timer is due; decrementing it alone, in 32 bits, brings the whole delta list one tick nearer, or 2^32 ticks less one further when it wraps |
| KernelStore.StampSpoilsDeltas | Kernel/timer.cpp:371-373 | writing count and mailbox into a buffer spoils the delta list if and only if the buffer is in it and something else was there |
| Kernels.Kernel.constructor | Kernel/buffers.cpp:27-71 | carves every class into its free list and starts with empty mailboxes and no timers: an initial state with the given numbers of buffers, classes sorted |
| Kernels.Kernel.CarveClass | Kernel/buffersQueue.cpp:75-95 | the carving loop adds exactly the buffers of its class |
| Kernels.Kernel.RetBuffer | Kernel/buffersQueue.cpp:175-182 | the buffer is appended to the free list of its class; the protection check refuses it exactly when its caller does not hold it |
| Kernels.Kernel.GetFree | Kernel/buffersQueue.cpp:191-200 | the head of the free list, which the protection check accepts, or none |
| Kernels.Kernel.GetBuffer | Kernel/buffers.cpp:83-103 | the head of the first class that fits and is not empty; none exactly when all that fit are empty |
| Kernels.Kernel.Enqueue | Kernel/mailbox.cpp:222-231 | the message becomes the tail of its mailbox; refused exactly when its sender does not hold it |
| Kernels.Kernel.Add | Kernel/postOffice.cpp:85-91 | as Enqueue, and the semaphore is released unless at its maximum; an unknown mailbox is refused |
| Kernels.Kernel.Receive | Kernel/mailbox.cpp:263-282 | the discard loop on the linked lists performs Take |
| Kernels.Kernel.Walk | Kernel/timer.cpp:203-209 | the search loop of the insertion: what it has passed, what it has subtracted, where it stops |
| Kernels.Kernel.AddTimer | Kernel/timer.cpp:192-225 | linking into the delta list refines insertion at an absolute time; a buffer that its caller does not hold is refused and nothing changes |
| Kernels.Kernel.Send | Kernel/kernelAPI.h:316-320 | sending on a valid kernel keeps it valid and performs one Send step |
| Kernels.Kernel.Get | Kernel/postOffice.cpp:121-126 | reading without the semaphore; an unknown mailbox is an error without effect |
| Kernels.Kernel.GetSync | Kernel/postOffice.cpp:128-135 | reading after one unit of the semaphore has been taken |
| Kernels.Kernel.SetMsgCode | Kernel/messages.h:578 | the code of the held buffer is written, and nothing else in memory |
| Kernels.Kernel.StartTimer | Kernel/timer.cpp:351-375 | the timer expires after the scaled count of ticks; a count of zero is refused without effect, a buffer not held after its fields have been overwritten, and exactly when that spoils the list |
| Kernels.Kernel.StartNewTimer | Kernel/kernelAPI.cpp:87-110 | a timer in a buffer from the pool whose message has this code, no parameters and this mailbox, every other message being as it was; nothing when the pool is exhausted; a count of zero is refused only after the buffer has been taken, which stays out |
| Kernels.Kernel.RestartTimer | Kernel/timer.cpp:387-418 | a copy with the timer's code, parameter length and mailbox is started and the timer itself discarded, every other message being as it was; zero counts, stopped timers and an exhausted pool change nothing |
| Kernels.Kernel.StopTimer | Kernel/timer.cpp:427-430 | the message is marked discarded wherever it is, and nothing else in memory is written |
| Kernels.Kernel.TimerRunning | Kernel/timer.cpp:441-447 | true exactly for a timer that has not been discarded |
| Kernels.Kernel.Tick | Kernel/timer.cpp:507-554 | one decrement and the posting loop perform a whole tick from any valid state: every timer due goes to the mailbox it names, none when the decrement wraps; no message says anything else than before |
| Kernels.Kernel.PurgeAllTimers | Kernel/timer.cpp:262-275 | every timer goes back to the pool |
| Kernels.Kernel.PurgeMailBox | Kernel/mailbox.cpp:320-326 | the mailbox is emptied into the pool |
| Kernels.Kernel.Destroy | Kernel/fsmSystem.cpp:311-319 | timer, post office and pool in the coded order; the check of each class is met exactly when the application holds no buffer of it |
| FsmTimers.FiniteStateMachine.StartTimer | Kernel/fsm.cpp:205-220 | the handle is that of a new timer with the block's count, whose message has the block's signal for its code and the automaton's mailbox; other timers are untouched |
| FsmTimers.FiniteStateMachine.StopTimer | Kernel/fsm.cpp:230-243 | the timer's message is discarded and the handle cleared; without a handle nothing happens |
| FsmTimers.FiniteStateMachine.Reset | Kernel/fsm.cpp:167-175 | the initial state; exactly this automaton's timers are discarded, every other message keeps its code, and none of its timers is left running |
| FsmTimers.FiniteStateMachine.ResetTimer | Kernel/fsm.cpp:251-253 | when a timer's message has arrived, clearing its handle makes all handles good again |
| FsmTimers.StepKeepsHandles | Kernel/fsm.cpp:205-274 | a kernel step by anyone else leaves every timer of the automaton on its way, or hands out the message of one of them and leaves the others |
| FsmTimers.RunKeepsHandles | Kernel/fsm.cpp:205-274 | so does every run of ticks and other threads' steps between two calls |
| FsmTimers.ResetIsFinal | Kernel/fsm.cpp:167-175 | at whatever moment Reset comes and whatever happens then, none of the automaton's timers is delivered |
| FsmTimers.StopIsFinal | Kernel/fsm.cpp:230-243 | the same of StopTimer |
| TlvSpec.LeRoundTrip | Kernel/KernelFunctions.cpp:6-36 | a little-endian number is read back if and only if it fits |
| TlvSpec.ReadAt | Kernel/stdMsgpc16pl16.cpp:46-62 | each parameter is read back from its offset: code, length and value |
| TlvSpec.AddedKeepsOrder | Kernel/stdMsgpc16pl16.cpp:73-89 | parameters stay sorted by code |
| TlvSpec.AddedValues | Kernel/stdMsgpc16pl16.cpp:267-290 | an addition appends to the values of its own code and leaves those of every other code alone |
| TlvSpec.AddedAllGivesBack | Kernel/stdMsgpc16pl16.cpp:99-290 | whatever has been added in whatever order, each code gives its values back in the order added, and nothing is lost |
| TlvSpec.VisitedIsValues | Kernel/stdMsgpc16pl16.cpp:99-177 | GetParam followed by GetNextParam until it fails visits exactly the parameters with the code, in message order |
| StandardMessages.StandardMessage.AllParams | Kernel/stdMsgpc16pl16.cpp:99-190 | calling GetParam and then GetNextParam on the bytes until nothing is found collects exactly the values under the code, in message order, and leaves the cursor at the start |
| TlvCodec.SplicedCarriesAdded | Kernel/stdMsgpc16pl16.cpp:267-290 | moving the rest up and writing the parameter into the gap gives the encoding with the parameter behind all codes not greater; header, terminator bytes and what follows the message are kept |
| TlvCodec.CanBeCarried | Kernel/stdMsgpc16pl16.cpp:281-283 | a list fits into some message if and only if codes and lengths fit their fields and all of it the 16-bit length |
| StandardMessages.StandardMessage.FindParam | Kernel/stdMsgpc16pl16.cpp:46-62 | the first parameter with the code from the cursor on, the cursor behind it; otherwise none, and the cursor at the start if and only if the message has parameters or the search began there; the source's assertion holds |
| StandardMessages.StandardMessage.GetParam | Kernel/stdMsgpc16pl16.cpp:99-101 | the search from the start |
| StandardMessages.StandardMessage.GetNextParam | Kernel/stdMsgpc16pl16.cpp:175-177 | the search from the cursor, wherever an earlier message has left it when this one is empty |
| StandardMessages.StaleCursor | Kernel/stdMsgpc16pl16.cpp:50-52 | an empty message and a cursor left at 7: nothing is found and the cursor stays at 7 |
| StandardMessages.StandardMessage.GetParamWord | Kernel/stdMsgpc16pl16.cpp:151-156 | two bytes from the start of the first value, the number in them when it has as many; nothing when there is none |
| StandardMessages.StandardMessage.FindParamPlace | Kernel/standardMsg.cpp:73-89 | the place behind all codes that are not greater; an empty message gets its terminator |
| StandardMessages.StandardMessage.SetENDOfParams | Kernel/standardMsg.cpp:352-355 | a message without parameters gets its terminator, two bytes of which pc8 writes one |
| StandardMessages.StandardMessage.AddParam | Kernel/standardMsg.cpp:267-288 | in place, for both codings: one parameter more at its place, every header byte outside the length field and every byte behind the message unchanged |
| StandardMessages.StandardMessage.AddParamWord | Kernel/stdMsgpc16pl16.cpp:316-318 | the same with the two bytes of a number |
| StandardMessages.StandardMessage.RemoveParam | Kernel/stdMsgpc16pl16.cpp:344-352 | never removes anything, on any message and for any code: its search has passed the parameter it looks for |
| MessageHandlers.MessageHandler.PrepareNewMessage | Kernel/messages.cpp:61-74 | a message without parameters, with this code and coding, in a buffer of the asked size |
| MessageHandlers.MessageHandler.CheckBufferSize | Kernel/messages.cpp:188-197 | afterwards there are more than eight bytes beyond message and parameter; the message moves only if there were not, then to a buffer with ten, every byte of it is kept and the old buffer goes back, so that one buffer is out; an exhausted pool changes nothing |
| MessageHandlers.MessageHandler.AddParam | Kernel/messages.cpp:176-179 | for every buffer size, message and parameter: added without writing past the buffer or losing a byte, first parameter and terminator included |
| MessageHandlers.RoomMade | Kernel/messages.cpp:188-197 | the eight bytes are enough for the parameter's header and a missing terminator |
| FsmDispatch.ExtendedLookup | Kernel/fsm.cpp:331-354 | a new branch is found and no other lookup changes |
| FsmDispatch.Dispatcher.InitEventProc | Kernel/fsm.cpp:331-354 | binds the event in the state and changes no other binding; a second branch for the event is refused without effect, one branch too many is an error |
| FsmDispatch.Dispatcher.GetProcedure | Kernel/fsm.cpp:309-320 | the procedure bound to the event, or the one for unexpected events |
| DnsAutomata.DnsProgram.constructor | POP3ClientCppUnit/ClAuto.cpp:50-66 | the tables built by InitEventProc give every state exactly its handlers, and the run starts with the user's first message |
| DnsAutomata.DnsProgram.DispatchUser | POP3ClientCppUnit/UserAuto.cpp:54-136 | looking up and running the handler performs the user's step, of which TypedNameIsAskedFor says what becomes of the name read and AnswerIsShown what is shown |
| DnsAutomata.DnsProgram.DispatchClient | POP3ClientCppUnit/ClAuto.cpp:50-203 | the same for the client, in every reachable state; StartTimer's assertion holds |
| DnsAutomata.DnsProgram.DispatchChannel | POP3ClientCppUnit/ChAuto.cpp:49-195 | the same for the channel |
| DnsSafety.StepKeepsInv | POP3ClientCppUnit/ClAuto.cpp:50-190 | every step, server replies and disconnects at any time included, keeps the invariant: the states determine both mailboxes up to late replies |
| DnsSafety.RunKeepsInv | POP3ClientCppUnit/UserAuto.cpp:54-136 | so does every run |
| DnsSafety.ReachableInv | POP3ClientCppUnit/UserAuto.cpp:64-70 | from the user's Start on it holds in every reachable state |
| DnsRuns.OneToken | POP3ClientCppUnit/ClAuto.cpp:68-190 | queries under way, busy client and answers under way sum to one exactly while the user waits for its data, to none otherwise |
| DnsRuns.OnlyNoiseIsDropped | Kernel/fsm.cpp:309-320 | the handler for unexpected events gets nothing but late channel replies and answers already passed on; no query and no answer to the user is dropped |
| DnsRuns.QueriesAndAnswers | POP3ClientCppUnit/UserAuto.cpp:109-136 | in every run queries asked and answers given balance: at most one answer to each query, however often the channel replies |
| DnsRuns.RequestToChannel | POP3ClientCppUnit/ClAuto.cpp:143-159 | when a request goes to the channel its timer is not running, and it carries the user's input (by TypedNameIsAskedFor the name typed) |
| DnsNames.TypedNameIsAskedFor | POP3ClientCppUnit/UserAuto.cpp:96-121 | from the turn that reads a name until the next that does, in every run: each query in the client's mailbox carries this name, it is the client's input at the lookup, each request put into the channel's mailbox carries it, and no other step sends a request |
| DnsNames.TextIs | POP3ClientCppUnit/UserAuto.cpp:114 | what strlen counts are the bytes in front of the first zero, or all of them |
| DnsRuns.AtMostOneSocket | POP3ClientCppUnit/ChAuto.cpp:66-94 | the socket is created at most once in any run |
| DnsChannels.StepPuts | POP3ClientCppUnit/ChAuto.cpp:72-94 | the channel's mailbox is first in, first out; the message that creates the socket is posted exactly when the channel takes a request on its first start |
| DnsChannels.RequestIsTaken | POP3ClientCppUnit/ChAuto.cpp:72-79 | the request that the channel takes becomes its input, byte by byte |
| DnsChannels.FlagCountsWakeups | POP3ClientCppUnit/ChAuto.cpp:66-70 | in every run FirstStartFlag counts the turns in which the channel leaves its idle state |
| DnsChannels.ChannelGoesOn | POP3ClientCppUnit/ChAuto.cpp:49-195 | in every reachable state the channel, when idle or disconnected, has the message in its mailbox that takes it on (at the very start the user sends it); two of its six states are never reached |
| DnsRuns.NoDeadlock | POP3ClientCppUnit/ClAuto.cpp:68-190 | unless the client waits for the channel, a message is queued for user or client that will be handled when it comes to the head |
| DnsRuns.WorkIsBounded | POP3ClientCppUnit/ClAuto.cpp:68-190 | a waiting user's client takes no more turns than its mailbox held work for, plus two for each late reply |
| DnsRuns.HitsGoOn | POP3ClientCppUnit/ClAuto.cpp:91-141 | while the local table hits and the user waits, the client has a message to handle |
| DnsRuns.AnsweredWhenTableHits | POP3ClientCppUnit/ClAuto.cpp:91-141 | and then every query is answered within that bounded number of turns |
| DnsRuns.QueryIsAnswered | POP3ClientCppUnit/UserAuto.cpp:109-121 | from the moment the user passes a query on: while the table hits and no answer has come, the client has a message to handle and has taken fewer turns than its mailbox, the query and later replies account for |
| DnsAnswers.HitFixesAnswer | POP3ClientCppUnit/ClAuto.cpp:91-141 | a lookup that hits fixes the answer: the last channel reply in the client's mailbox, or the line of the table if there is none |
| DnsAnswers.StepKeepsAnswer | POP3ClientCppUnit/ClAuto.cpp:161-190 | until it is given nothing that comes in changes it, and it is what the user gets |
| DnsAnswers.AnswerIsLineIff | POP3ClientCppUnit/ClAuto.cpp:91-190 | in every run the user gets the table's line if and only if no channel reply lay in the client's mailbox at the lookup, or the last one reads the same |
| DnsAnswers.ReplyIsAnswer | POP3ClientCppUnit/ClAuto.cpp:161-190 | once the server has replied to a client that waits for it, in every run the user is answered with the last reply that comes in before the client's next turn, up to its first zero byte |
| DnsAnswers.ReplyIsHandedOn | POP3ClientCppUnit/ClAuto.cpp:161-190 | so it is when a late reply already lies in the client's mailbox: the last reply that is there at the client's next turn is the answer |
| DnsAnswers.AnswerIsShown | POP3ClientCppUnit/UserAuto.cpp:123-136 | in every run a waiting user shows the data of the answer it is given |
| XmlStripping.EscapeRoundTrip | CppUnit_1.12.1/src/cppunit/XmlElement.cpp:193-222 | decoding the five predefined entities (section 4.6 of XML 1.0) undoes escaping |
| XmlStripping.EscapedIsFree | CppUnit_1.12.1/src/cppunit/XmlElement.cpp:193-222 | escaped text contains no double quote and no tag |
| XmlStripping.AttributesScanned | CppUnit_1.12.1/examples/cppunittest/XmlUniformiser.cpp:160-184 | printed attributes are copied unchanged, whatever their values |
| XmlStripping.StripContent | CppUnit_1.12.1/examples/cppunittest/XmlUniformiser.cpp:221-236 | text in front of a tag is reduced to its trimmed form |
| XmlStripping.StrippedIsCompact | CppUnit_1.12.1/examples/cppunittest/XmlUniformiser.cpp:50-236 | stripping a printed element gives its compact form, for every tree, content, value and indentation |
| XmlLayout.SkippedVanishes | CppUnit_1.12.1/examples/cppunittest/XmlUniformiser.cpp:122-139 | a comment or processing instruction in which the closing mark begins nowhere before its place leaves no trace, behind any blanks and any stripped text |
| XmlLayout.UnclosedTakesAll | CppUnit_1.12.1/examples/cppunittest/XmlUniformiser.cpp:122-139 | one that is not closed takes the rest of the text with it |
| XmlLayout.StrippedSkipsComments | CppUnit_1.12.1/examples/cppunittest/XmlUniformiser.cpp:51-66 | a whole text strips to the same with and without it at the front; text before it is trimmed |
| XmlLayout.LooseTagStripped | CppUnit_1.12.1/examples/cppunittest/XmlUniformiser.cpp:142-209 | an opening tag with any blanks before its attributes, around the equals signs and before its end is stripped to the tag that toString prints |
| XmlLayout.ValuelessScanned | CppUnit_1.12.1/examples/cppunittest/XmlUniformiser.cpp:172-180 | an attribute without a value is copied with a space behind it |
| XmlLayout.CutOffTag | CppUnit_1.12.1/examples/cppunittest/XmlUniformiser.cpp:142-184 | a tag that the text ends in behind its name is copied with a space behind it |
| XmlLayout.LastText | CppUnit_1.12.1/examples/cppunittest/XmlUniformiser.cpp:220-237 | text at the end of the input is trimmed |
| XmlEquality.TrimEscape | CppUnit_1.12.1/src/cppunit/XmlElement.cpp:193-222 | trimming and escaping commute |
| XmlEquality.EqualIffSame | CppUnit_1.12.1/examples/cppunittest/XmlUniformiser.cpp:20-39 | two printed elements strip to the same text if and only if they are the same but for spaces around content |
| XmlElements.EscapeText | CppUnit_1.12.1/src/cppunit/XmlElement.cpp:193-222 | the loop over the characters |
| XmlElements.XmlElement.AddElement | CppUnit_1.12.1/src/cppunit/XmlElement.cpp:88-91 | the node becomes the last child; the elements still form a tree |
| XmlElements.XmlElement.ElementFor | CppUnit_1.12.1/src/cppunit/XmlElement.cpp:112-123 | the first child of that name, or the number of children where the source throws |
| XmlElements.XmlElement.AttributesAsString | CppUnit_1.12.1/src/cppunit/XmlElement.cpp:173-189 | the attributes with single spaces between them |
| XmlElements.XmlElement.ToText | CppUnit_1.12.1/src/cppunit/XmlElement.cpp:127-169 | appending piece after piece prints the element as specified |
| XmlElements.PrintedLines | CppUnit_1.12.1/src/cppunit/XmlElement.cpp:127-169 | line by line: an element without children takes one line, otherwise its tags and its content take a line each and the children stand in between, two columns further to the right |
| XmlUniformisers.XmlUniformiser.CopyAttributes | CppUnit_1.12.1/examples/cppunittest/XmlUniformiser.cpp:160-184 | the loop with its break, on any text whatever, performs the attribute scan |
| XmlUniformisers.XmlUniformiser.StripAll | CppUnit_1.12.1/examples/cppunittest/XmlUniformiser.cpp:51-66 | the scanner terminates on any text whatever and performs Strip, of which StrippedIsCompact and the lemmas of XmlLayout say what it does with each kind of markup |
| XmlUniformisers.NotEqualIndex | CppUnit_1.12.1/examples/cppunittest/XmlUniformiser.cpp:5-15 | the length of the longest common prefix |
| XmlUniformisers.CheckXmlEqual | CppUnit_1.12.1/examples/cppunittest/XmlUniformiser.cpp:20-39 | accepts exactly texts that strip to the same (see StrippedSkipsComments, LooseTagStripped, EqualIffSame); otherwise reports where they begin to differ |
| TestTree.PreorderIsPaths | CppUnit_1.12.1/src/cppunit/Test.cpp:32-53 | the preorder lists paths downwards from the root |
| TestTree.PathIsInPreorder | CppUnit_1.12.1/src/cppunit/Test.cpp:32-53 | and every such path |
| TestTree.FoundIffThere | CppUnit_1.12.1/src/cppunit/Test.cpp:32-78 | a search succeeds exactly when some test of the tree is the target, with a path from the root to it |
| TestTree.FirstIs | CppUnit_1.12.1/src/cppunit/Test.cpp:19-53 | what a search by name finds is the one test of this name before which no other of this name stands in preorder |
| TestPaths.FindTestPath | CppUnit_1.12.1/src/cppunit/Test.cpp:32-78 | both searches: the first target in preorder; its path put around the given path; that path unchanged on failure |
| TestPaths.FindTest | CppUnit_1.12.1/src/cppunit/Test.cpp:19-28 | the first test of that name in preorder, or none where the source throws |
| TestPaths.ResolvePrinted | CppUnit_1.12.1/src/cppunit/TestPath.cpp:43-70 | resolving a printed path gives it back if and only if no name on it has a slash and no test on it stands behind a sibling of the same name |
| TestPaths.ResolvePrintedDistinct | CppUnit_1.12.1/src/cppunit/TestPath.cpp:188-251 | in a tree whose siblings have distinct names, for every path, if and only if no name on it has a slash |
| TestPaths.SecondIsHidden | CppUnit_1.12.1/src/cppunit/TestPath.cpp:52-61 | the second of two siblings of one name is not found by its path |
| TestPaths.ResolvedNames | CppUnit_1.12.1/src/cppunit/TestPath.cpp:43-70 | whatever any string resolves to is a way down the tree that spells the string name by name; it starts at the root for an absolute string, at the first test of its name in preorder for a relative one |
| TestPaths.ResolveRelative | CppUnit_1.12.1/src/cppunit/TestPath.cpp:203-222 | a path printed without the slash in front is resolved to itself if and only if no name on it has a slash, no test on it stands behind a sibling of the same name, and its first test is the first of its name in preorder |
| TestPaths.ResolveUnknown | CppUnit_1.12.1/src/cppunit/TestPath.cpp:203-222 | the empty string resolves to the root alone; a relative string whose first name no test has leads nowhere |
| TestPaths.Resolve | CppUnit_1.12.1/src/cppunit/TestPath.cpp:43-70 | absolute, relative and empty paths, resolved child by child as ResolvePrinted, ResolveRelative and ResolveUnknown say; none where the source throws |
| TestPaths.SplitPathString | CppUnit_1.12.1/src/cppunit/TestPath.cpp:226-251 | the names between slashes, and whether the path is relative |
| TestPaths.TestPath.InsertPath | CppUnit_1.12.1/src/cppunit/TestPath.cpp:125-131 | the whole path stands at the index, in its order |
| TestPaths.TestPath.ToText | CppUnit_1.12.1/src/cppunit/TestPath.cpp:189-200 | a slash before every name |
| StringTools.JoinSplit | CppUnit_1.12.1/src/cppunit/StringTools.cpp:28-47 | joining the pieces gives the text back, no piece contains the separator, and only the empty text has no pieces |
| StringTools.PiecesJoin | CppUnit_1.12.1/src/cppunit/StringTools.cpp:28-47 | splitting what has been joined gives the pieces back |
| StringTools.SplitText | CppUnit_1.12.1/src/cppunit/StringTools.cpp:28-47 | the loop of split |
| StringTools.WrapFits | CppUnit_1.12.1/src/cppunit/StringTools.cpp:51-76 | every line of a wrapped text fits the column |
| StringTools.WrapTwice | CppUnit_1.12.1/src/cppunit/StringTools.cpp:51-76 | wrapping is idempotent |
| StringTools.WrapAddsBreaks | CppUnit_1.12.1/src/cppunit/StringTools.cpp:51-76 | wrapping only adds line breaks |
| StringTools.WrapCuts | CppUnit_1.12.1/src/cppunit/StringTools.cpp:51-76 | line by line a wrapped text is broken behind every wrapColumn characters and nowhere else: a line of length n > 0 becomes (n + wrapColumn - 1) / wrapColumn lines, all but the last exactly wrapColumn long |
| StringTools.CutIsUnique | CppUnit_1.12.1/src/cppunit/StringTools.cpp:64-73 | there is only one way to break a line like this |
| StringTools.WrapText | CppUnit_1.12.1/src/cppunit/StringTools.cpp:51-76 | the two loops of wrap break every line of the text behind every wrapColumn characters and nowhere else |

## Left out

- Objects: TBuffers, TPostOffice and CTimer, which the source reaches through static pointers, are one object; buffers are addresses into one map of headers, not heap objects; of the message header only the fields that the kernel reads are kept with them.
- Aliasing: the byte contents of a pool buffer (MessageHandlers) and its kernel header (Kernels) are separate models.
- Locks and operating system primitives: each locked section is one step; the missing unlock on an empty free list and the wait of GetSync are not modelled (the mailbox found signalled is a parameter).
- Kernels.Kernel.StartTimer: demands an existing mailbox, which the source does not check; posting to an unknown one throws inside the tick handler.
- Kernels.Kernel.StartNewTimer: demands an existing mailbox, as StartTimer does.
- Kernels.Kernel.RestartTimer: demands a timer that is not in a free list, and an existing mailbox in it; restarting a buffer that has been given back may copy it onto itself.
- FsmTimers.FiniteStateMachine.InitTimerBlock: demands a signal other than the kernel's code for discarded messages, which would make the timer a stopped one.
- AddOnHead, GetCount, IsEmpty, QueryHead and the previous-pointer links of mailboxes and free lists: nothing above depends on them.
- MessageHandlers.MessageHandler.GetBuffer: whether the pool is exhausted, and by how much the buffer is longer than asked for, are left open; the choice itself is proved of Kernels.Kernel.GetBuffer.
- StandardMessages.StandardMessage.AddParam: demands a code and a length that fit their fields and room for all; the source cuts them short, and TlvCodec.CanBeCarried says that no message can carry what this shuts out.
- StandardMessages.StandardMessage.AddParamWord: demands the same of the code.
- MessageHandlers.MessageHandler.AddParam: demands the same of code and length.
- StandardMessages.StandardMessage.GetNextParam: on a message with parameters the cursor must stand where one begins; from elsewhere the source reads whatever bytes are there.
- StandardMessages.StandardMessage.FindParam: the same of its start.
- The length-returning GetNextParam of the 16-bit codec: it reads only the low byte of the length.
- GetParamByte, GetParamDWord and their relatives: as GetParamWord and AddParamWord with another width; CopyMessage and CopyMessageInfo.
- The choice between several message codings in one handler.
- Timer expiry in the DNS client: the retry handler is bound in DNS_Request while the timer runs in DNS_Recived, where the expiry message is unexpected and the handle is not cleared.
- Liveness of remote queries: a second query that the local table misses is never sent to the server; only safety is claimed there.
- The search of the local table: its search string stays empty in the source; hit or miss is left open. Names of 256 bytes and more, which overrun the source's buffers.
- DnsAutomata.DnsProgram.DispatchChannel: connecting, sending and starting the listener have no effect on states and mailboxes; the server's replies and disconnects are steps of their own.
- Sockets, threads, the listener's Sleep, the console and log output, the wrap-around of FirstStartFlag.
- FSMSystem's object lists and the bounds of its dispatch loop, and distribution routing.
- XmlElements.XmlElement.AddElement: demands a node that shares nothing with the element, which the source needs for its destructor.
- XmlElement's numeric content and attributes, and the deletion of children.
- StringTools.WrapText: demands a positive column; for zero the source does not end. The 32-bit wrap-around of its index is not modelled.
- TestPaths.TestPath.InsertPath: a path inserted into itself, which the source reads while it grows.
- removeTests, up and copies of parts of a path: no property above uses them.
- The rest of CppUnit, and all test code.
