# Verification of the SCTP feature server and its helpers

This project models the FreeBSD feature server of the repository
(`server/freebsd_ref/main.cpp`) and the small codecs around it: the summary
stream decoder of the smoke script, the command line the runner builds for its
helper processes, and the parsers of the C and Go helpers. Everything is proved
by Dafny; `dafny verify dfyconfig.toml` checks the whole project.

## What is modelled

**Sessions as a step system** (`Execution`, `Lifecycle`, `Sockets`, `Invariant`,
`Shapes`, `Steps`, `Guards`, `Conservation`, `Lifetimes`, `Counting`, `Summaries`). A session has
executions, one `active_feature_id` slot and listening sockets. Threads are
request handlers, detached SCTP workers, readers and summary streams. One step is
one lock section of the program, so a thread that has changed the state of an
execution still owes, as explicit program points, taking the sockets, closing
each of them, and clearing the slot. An oracle decides whether a socket can be
created and what a worker reports; the clock only moves forward. Sockets are
unique tokens. Three history variables (who started and who finished an
execution, and for which feature a socket was opened) exist for the proofs only.

**The routines as sequential code** (`Worlds`, `Server`, `Requests`, `Solo`,
`Uninterrupted`). `Server` gives the same routines as they run when nothing
interleaves, as methods on mutable session and execution objects, from the body of a
request to its answer; their contracts are in terms of what a routine can see and
change (`Worlds`). `Solo` defines a thread of the step system that runs alone, and
`Uninterrupted` proves that a start, a complete or an unsupported request run alone
from arrival to `Done` reaches exactly the world of the sequential routine
(`StartAlone`, `CompleteAlone`, `UnsupportedAlone`). The lock sections and the
handlers are thus two descriptions proved equal, not one. What both come to is said a
third time in `Worlds`, field by field and in the texts of the program, as relations
between the world before and the world after (`Fails`, `Observes`, `Expires`, `Reports`,
`Withdraws`, `Starts`), which no routine uses. `Locks` models the three
kinds of mutex with every routine of the server as a list of acquisitions and
releases.

**The environment assumption** (`Environment`, `Runs`, `Necessity`, `Witnesses`).
`StartFeature` tests the slot and the state in lock sections of their own and acts in
later ones. The documentation asks clients to run features serially
(`docs/instruct-coding-agent.md`, line 43; `README.md`, line 156). The step system is
therefore studied under `Lifecycle.Env`, a condition on single steps: when a start
passes its state check, the slot is still empty and no other start is between its
state check and its write of the slot; and no section ends an execution, or takes its
sockets, while another thread is starting that same execution. Reads, streams,
workers and requests about other features interleave freely.

- It follows from the documented use (`Environment.SerialUseSuffices`): requests that
  change the session are issued one at a time, and no start spends as long between its
  activation and its write of the slot as its feature's timeout.
- It is exact for four breaks taken together: a second Active execution, a terminal
  execution that comes back, a slot that names an ended feature nobody will clear, and a
  slot that is overwritten. A run that keeps the assumption makes none of them
  (`Necessity.EnvSuffices`), and after the first step that violates it the run can be
  continued to one (`Necessity.EnvIsNecessary`). It is not the condition of each break by
  itself: those are the guards of the next section, which it keeps away together
  (`Guards.EnvAvoids`).

**JSON** (`Bytes`, `Utf8`, `JsonGrammar`, `JsonSpec`, `JsonParser`,
`JsonPrinter`). Concrete syntax trees of the object, array and string part of
RFC 8259 (sections 2, 4, 5 and 7) determine a text and a meaning. The parser is
given as functions on the unread suffix, and again as cursor-moving loops proved
against them. The program has no single printer; `Render` composes its quoting
with the comma loops its printers share, and the printers are proved equal to it.
Bytes are characters below 256 so that constants stay readable.

**Streams** (`Lines`, `Spaces`, `Sse`, `SseSpelled`, `SummaryText`, `Readability`, `Views`,
`Spelled`, `Http`, `HttpRoundTrip`, `HttpSpelled`). The stream handler writes to a connection whose kernel may write
partially, be interrupted or fail; the script's decoder reads lines and decodes UTF-8,
failing on a line that is not. `Views` prints the rows a summary thread of the step
system has read, so that what is proved of runs reaches the bytes of the stream. `Spelled`
and `SseSpelled` give the texts of summaries, request bodies and events letter by letter,
from the fields of the executions; `HttpSpelled` reads header names in any case. An
HTTP connection is a list of reads of at most 4096 bytes followed by a timeout or the
end of the stream.

**Scoring and the helper command line** (`Workers`, `Commas`, `Decimal`, `Wire`,
`HelperC`, `HelperCut`, `HelperGo`, `CommandLine`, `Helpers`, `HelperSpelled`). Worker threads are loops
over the trace their socket delivers. The C helper cuts a character array in place, the
Go helper splits strings; integer widths, saturation and wrap-around of the library
conversions are written out.

## Properties that fail, and exactly when

The model follows the code where the documentation says otherwise. The properties of a
session fail only through one step, which one thread takes in one state; `Guards` names
these steps, and over every run, without the environment assumption, each property below
holds if and only if its step is not taken. The witnesses are runs of every catalog with
features that can be started.

- One active feature per session (`docs/agent-http-api.md`, line 173): unless a start
  activates its feature beside an Active one, `Guards.OneActiveIff`. Two overlapping starts
  do, `Witnesses.OverlappingStartsBreakOneActive`.
- Terminal states absorb, and states only move forward: unless a start activates a feature
  that has ended, `Guards.AbsorbsIff`, `Lifetimes.ForwardStep`. An unsupported report
  answered while its feature is being started is undone by the activation, and the feature
  ends a second time, `Witnesses.ReportDuringStartIsUndone`. As long as no start does so, a
  state changes at most twice and a complete summary is final.
- A feature has passed exactly when its evidence is recorded: unless a start activates a
  passed feature, `Guards.JustifiedIff`. Of two overlapping starts of one feature the first
  may be reported and pass before the second activates it again,
  `Witnesses.OverlappingStartsVoidVerdict`.
- A filled slot names a live feature: unless a start names one that is not Active and that
  nobody will clear, `Guards.SlotKeptIff`. A deadline inside a start leaves it naming a
  timed-out one, `Witnesses.LateStartLosesSlot`, for the rest of the session,
  `Witnesses.StuckForever`.
- The slot of a feature is not taken over: unless a start finds another feature there when
  it names its own, `Guards.SlotOwnedIff`. Two overlapping starts take the slot from an
  Active feature, `Witnesses.OverlappingStartsTakeSlot`.
- The slot is cleared only for an ended feature: unless a thread that owes the clear finds
  its feature alive, `Guards.FairlyClearedIff`. An Active feature is named by the slot or
  about to be: unless one of the last two steps takes the slot from it, `Guards.NamedIff`.
- Every opened socket is held, in transit or closed: unless a start stores its sockets over
  others, `Conservation.ConservedIff`. A second start of the same feature does,
  `Witnesses.OverlappingStartsLoseSockets`; when no two starts of one feature are past
  their state checks together, none does, whatever else overlaps,
  `Conservation.SingleStartsNeverStoreOver`.
- Only Active features, and those being emptied, hold sockets (`docs/agent-http-api.md`,
  line 176): unless a start stores sockets in a feature that is not Active and that nobody
  will empty, `Conservation.GuardedIff`. A deadline between the activation and the storing
  of the sockets brings that about, `Witnesses.LateStartLeaksSockets`, and they stay open,
  `Witnesses.LeakedForever`; when no section acts on a feature that another thread is
  starting, no start comes too late, `Guards.SparedStartsAreInTime`.

`Sockets.NoDoubleClose`, `Counting.CountsSumToCatalog`, `Lifetimes.TimedOutAfterDeadline`
and `Summaries.OverdueSummaryHasNoActive` hold in every run. Elsewhere:

- The two reports of a hybrid feature commute unless the feature is Active and either an
  accepted client report differs from an earlier one, or the reports are made at different
  times and their order decides which of them ends the feature:
  `Worlds.HybridReportsCommuteIff`.
- The place where the HTTP reader splits head from body depends on how the bytes arrive
  exactly when a blank line (LF LF) lies so close before the first CR LF CR LF that one
  read can bring both, or the head ends within one read of the size limit of a longer
  stream: `Http.SplitIsDetermined`; seven bytes suffice, `Http.SomeStreamIsNotDetermined`.
- A summary is UTF-8 exactly when the messages, evidence, report texts and association
  numbers in it are (`Views.SummaryLegibleIff`); the server accepts a report that is not
  (`Views.BadReportIsRead`), and then the script's stream ends at the first such summary
  (`Views.BadReportText`, `Readability.SummariesSurvive`).
- The partial-reliability worker never succeeds when its two payloads are equal:
  `Workers.PrSucceedsIff`.
- The helpers recover the runner's messages exactly when no payload holds a comma or a
  colon and the rest is within their limits: `HelperCut.CInvertsIff`,
  `HelperGo.GoInvertsIff`. A payload with a colon is misread by the C helper without an
  error and refused by the Go helper, `Helpers.ColonIsMisread`. Whenever the C helper does
  recover the messages, the two agree exactly when no payload starts with white space:
  `Helpers.HelpersAgree`.

## Model

| member | source | states |
|---|---|---|
| Environment.SerialUseSuffices | docs/instruct-coding-agent.md:43 | in every run in which mutating requests are issued one at a time and no start takes as long as its timeout, every step satisfies the environment assumption; that the deadline lies a timeout after the start is derived |
| Necessity.EnvSuffices | server/freebsd_ref/main.cpp:3745-3848 | no step of a run that keeps the assumption makes two executions Active, revives a terminal one, leaves the slot to an ended feature nobody will clear, or overwrites it |
| Necessity.EnvIsNecessary | server/freebsd_ref/main.cpp:3745-3859 | after the first step of any run that violates the assumption there is a continuation to a step that does one of these four |
| Sockets.UniqueStep | server/freebsd_ref/main.cpp:1118-1148 | no step of any thread, in any interleaving, makes a socket token appear twice among executions, threads and the log of closes |
| Sockets.NoDoubleClose | server/freebsd_ref/main.cpp:1141-1148 | no socket is closed twice, in every run, without any assumption on the clients |
| Steps.CoreStep | server/freebsd_ref/main.cpp:3745-3848 | every step of every handler, worker, reader and stream keeps the joint invariant of executions, slot, threads and summaries |
| Steps.CoreAlways | server/freebsd_ref/main.cpp:1110-1206 | the joint invariant holds in every state of every run under the environment assumption |
| Guards.EnvAvoids | server/freebsd_ref/main.cpp:3745-3848 | under the environment assumption none of the guarded steps is ever taken |
| Guards.OneActiveIff | docs/agent-http-api.md:173 | at most one execution is Active throughout a run if and only if no start activates beside an Active one |
| Guards.AbsorbsIff | server/freebsd_ref/main.cpp:1155 | ended executions keep all a snapshot shows and both flags throughout a run if and only if no start activates one |
| Guards.JustifiedIff | docs/agent-http-api.md:40-42 | passing is equivalent to the recorded evidence throughout a run if and only if no start activates a passed feature |
| Guards.SlotKeptIff | server/freebsd_ref/main.cpp:1110-1116 | a filled slot names an Active feature or one a thread will clear, throughout a run, if and only if no start names a feature that is neither |
| Guards.SlotOwnedIff | server/freebsd_ref/main.cpp:3807-3810 | the slot is never taken over in a run if and only if no start names its feature while the slot names another |
| Guards.FairlyClearedIff | server/freebsd_ref/main.cpp:1114-1115 | the slot is emptied only for ended features in a run if and only if no clear finds its feature alive |
| Guards.NamedIff | server/freebsd_ref/main.cpp:3796-3810 | Active executions are named by the slot, or have a start about to name them, throughout a run if and only if the slot is never taken from an Active one that no start has still to name |
| Guards.SparedStartsAreInTime | server/freebsd_ref/main.cpp:3796-3810 | in a run in which no section acts on a feature that another thread is starting, no start stores sockets or names its feature too late |
| Lifetimes.OneActive | README.md:156 | at most one execution of a session is Active, in every reachable state |
| Lifetimes.ActiveIsNamed | server/freebsd_ref/main.cpp:3761-3809 | outside a start window the Active execution is exactly the one active_feature_id names |
| Lifetimes.SlotIsTruthful | server/freebsd_ref/main.cpp:1110-1116 | a filled slot names an Active execution, or a terminal one whose finishing thread still owes the clear: the slot is never lost |
| Lifetimes.SlotClearedForItsOwner | server/freebsd_ref/main.cpp:1114-1115 | the slot is emptied only for a terminal feature and only by a thread working on that feature |
| Lifetimes.VerdictIsEvidence | docs/agent-http-api.md:40-42 | in every run, until a start activates a passed feature: an execution is Passed if and only if the evidence its mode needs has been recorded |
| Lifetimes.HybridSettles | server/freebsd_ref/main.cpp:1165-1186 | whatever the order of the two reports of a hybrid feature, once both are recorded and no thread is left on it, it has passed, holds no socket and does not occupy the slot; in every run without one of the four steps that spoil verdict, sockets or slot |
| Lifetimes.ForwardStep | server/freebsd_ref/main.cpp:3850-3859 | a step moves every execution only forward (Pending, Active, then a terminal state that nothing alters) if and only if it is not the activation of an ended feature; the times of an Active one stay unless it is activated again |
| Lifetimes.TerminalAbsorbs | server/freebsd_ref/main.cpp:1155 | between two states of any run, if no start activates an ended feature in between: once terminal, an execution's state, message, times, evidence, report, association ids and evidence flags never change |
| Lifetimes.AtMostTwoChanges | server/freebsd_ref/main.cpp:1188-1206 | over any run in which no start activates an ended feature the state of an execution changes at most twice |
| Lifetimes.TimedOutAfterDeadline | server/freebsd_ref/main.cpp:1196-1200 | in every run, without any assumption, a TimedOut execution has a finish time no earlier than its deadline |
| Conservation.ConservedStep | server/freebsd_ref/main.cpp:3776-3800 | in any state, no step but the storing over held sockets loses a socket: each opened one stays held by its feature, in transit in a thread of that feature, or closed, also when a multi-target start fails part way |
| Conservation.ConservedIff | server/freebsd_ref/main.cpp:1118-1131 | at every moment of every run, all sockets opened so far are held, in transit or closed if and only if no start has stored its sockets over others |
| Conservation.SingleStartsNeverStoreOver | server/freebsd_ref/main.cpp:3761-3768 | while no two starts of one feature are past their state checks together, no start stores over held sockets |
| Conservation.SocketConservation | docs/agent-http-api.md:176 | in every run, until a start stores its sockets over others: the opened sockets are exactly those held, in transit or closed, and each is in exactly one of these places |
| Conservation.GuardedIff | server/freebsd_ref/main.cpp:1118-1148 | throughout a run only Active features and those about to be emptied hold sockets if and only if no start stores sockets in a feature that is neither |
| Conservation.SettledReleases | server/freebsd_ref/main.cpp:3776-3790 | in every run in which no start stores sockets over others or too late: once a feature is not Active and its threads are through, every socket opened for it is closed: ended features, and those whose start failed part way |
| Conservation.SettledFreesSlot | server/freebsd_ref/main.cpp:1110-1116 | in every run in which no start names a feature too late, a feature that is not Active and whose threads are through is not in the slot |
| Counting.CountsSumToCatalog | server/freebsd_ref/main.cpp:2622-2677 | the six counts of every returned summary add up to the size of the catalog, in every interleaving without any assumption, although the executions are locked one after another |
| Counting.CountsCountRows | server/freebsd_ref/main.cpp:2635-2656 | in every run each of the six counts of a summary, returned or under way, is the number of its rows that show that state |
| Summaries.CompleteIsTrue | server/freebsd_ref/main.cpp:2671 | in every run in which no start activates an ended feature, a summary that reports complete returns at a moment when every feature is terminal, with the rows of that moment |
| Summaries.CompletionIsPermanent | server/freebsd_ref/main.cpp:2633-2656 | in every such run, after a complete summary every later summary of the session is identical to it |
| Summaries.OverdueSummaryHasNoActive | server/freebsd_ref/main.cpp:2633-2635 | in every run, a summary begun when all active deadlines have passed, with no start under way until it returns, reports zero active features |
| Witnesses.OverlappingStartsBreakOneActive | server/freebsd_ref/main.cpp:3748-3809 | for every two features that can be started there is a run with two overlapping starts that makes both Active |
| Witnesses.OverlappingStartsTakeSlot | server/freebsd_ref/main.cpp:3807-3810 | for every two features that can be started there is a run in which one takes the slot from the other, which is Active |
| Witnesses.ReportDuringStartIsUndone | server/freebsd_ref/main.cpp:3850-3859 | for every feature and report there is a run in which the feature is Unsupported, then Active again, then TimedOut |
| Witnesses.OverlappingStartsVoidVerdict | server/freebsd_ref/main.cpp:3920-3952 | for every agent-reported feature and report it accepts there is a run after which the feature is Active although its report is recorded |
| Witnesses.LateStartLosesSlot | server/freebsd_ref/main.cpp:3761-3768 | for every feature there is a run in which its deadline passes inside the start and the slot is left naming the timed-out feature |
| Witnesses.StuckForever | server/freebsd_ref/main.cpp:3750-3752 | such a slot is never cleared by any later step of any thread |
| Witnesses.OverlappingStartsLoseSockets | server/freebsd_ref/main.cpp:1118-1131 | for every feature with listeners there is a run of two starts of it after which an open socket is in no execution, no thread and not closed |
| Witnesses.LateStartLeaksSockets | server/freebsd_ref/main.cpp:3796-3800 | for every feature with listeners there is a run that leaves it TimedOut and holding sockets no thread will take |
| Witnesses.LeakedForever | docs/agent-http-api.md:176 | such sockets are kept and never closed by any later step of any thread |
| Locks.RoutinesAreOrdered | server/freebsd_ref/main.cpp:2598-2620 | every routine acquires its mutexes in the one order table of sessions, session, execution, never two of a kind, and returns them all |
| Locks.NoSelfWait | server/freebsd_ref/main.cpp:2810-2829 | in every reachable state no thread waits for a mutex it holds |
| Locks.WaitsForAcyclic | server/freebsd_ref/main.cpp:2535-2542 | the waits-for graph of every reachable state has no cycle |
| Locks.DeadlockFree | server/freebsd_ref/main.cpp:1110-1206 | while any thread is unfinished some thread can run |
| Server.FeatureExecution.constructor | server/freebsd_ref/main.cpp:159-177 | a new execution is pending with the message "not started", without evidence, sockets or times |
| Server.CloseActiveFds | server/freebsd_ref/main.cpp:1141-1148 | the sockets the execution held are closed in order, each once, and it holds none afterwards |
| Server.MarkFailed | server/freebsd_ref/main.cpp:1150-1163 | field by field: an active execution becomes Failed with the message and the finish time, holds no sockets, those it held are closed in order, the slot is emptied if it is the feature's, and nothing else changes; another execution is left alone |
| Server.MarkNetworkComplete | server/freebsd_ref/main.cpp:1165-1186 | field by field, the new state after the network's report: passed with its sockets closed and the slot freed, or still waiting for the client with its sockets closed, or unchanged |
| Server.MaybeTimeout | server/freebsd_ref/main.cpp:1188-1206 | field by field, the new state after a timeout check, with the clock read once for the comparison and once for the finish time |
| Server.CompleteFeature | server/freebsd_ref/main.cpp:3896-3954 | from the bytes of the body: the whole new state and the answer of a client report after its timeout check, for malformed JSON, bad association numbers and every refusal |
| Server.UnsupportedFeature | server/freebsd_ref/main.cpp:3956-3978 | from the bytes of the body: the whole new state and the answer of an unsupported request after its timeout check, for malformed bodies and every refusal |
| Server.OpenListeners | server/freebsd_ref/main.cpp:3776-3790 | all listeners are opened, or, when one cannot be, exactly the ones already opened are closed |
| Server.StartFeature | server/freebsd_ref/main.cpp:3745-3848 | after the timeout check, for every scenario kind and number of listeners the system grants: no socket for a feature without listeners, one for each target of a multi-target feature, one for any other; every record, slot and answer, and the closing of what was opened when a listener is missing |
| Worlds.StartIsAllOrNothing | server/freebsd_ref/main.cpp:3745-3848 | a start either leaves execution and slot as they were, or makes the pending feature Active in the free slot with its deadline and its full number of sockets |
| Worlds.FinishReleases | docs/agent-http-api.md:176 | whichever section of a worker, a reader or a report ends a feature: with its tail run, the sockets it held are closed, it holds none, and the slot is freed if it was its own |
| Worlds.HybridReportsCommuteIff | server/freebsd_ref/main.cpp:3920-3952 | network report and client report, each at its own time, reach the same state, flags, times, slot and closed sockets in either order if and only if, should the feature be Active, an accepted client report adds nothing to an earlier one and the order does not decide the finish time |
| Worlds.FailureSpelled | server/freebsd_ref/main.cpp:1150-1163 | what a worker's failure report does to execution, slot and closed sockets, in terms of the fields alone |
| Worlds.ObservationSpelled | server/freebsd_ref/main.cpp:1165-1186 | the same for the network's report |
| Worlds.DeadlineSpelled | server/freebsd_ref/main.cpp:1188-1206 | the same for a timeout check |
| Worlds.ReportSpelled | server/freebsd_ref/main.cpp:3921-3953 | the same for a client report and its answer, with the four refusals |
| Worlds.WithdrawalSpelled | server/freebsd_ref/main.cpp:3963-3977 | the same for an unsupported request and its answer |
| Worlds.StartSpelled | server/freebsd_ref/main.cpp:3745-3848 | the same for a start and its answer, with the sockets each scenario kind opens |
| Solo.DrainIsFinish | server/freebsd_ref/main.cpp:1161-1162 | a thread of the step system that runs its finishing tail without interruption has exactly the effect of the sequential routine |
| Uninterrupted.StartAlone | server/freebsd_ref/main.cpp:3745-3848 | a start of the step system run alone from arrival to its end reaches the world of the sequential start, for every scenario kind and any number of listeners granted, and touches nothing else |
| Uninterrupted.CompleteAlone | server/freebsd_ref/main.cpp:3896-3954 | a client report of the step system run alone reaches the world of the sequential handler and touches nothing else |
| Uninterrupted.UnsupportedAlone | server/freebsd_ref/main.cpp:3956-3978 | the same for an unsupported request |
| Uninterrupted.FailureAlone | server/freebsd_ref/main.cpp:1150-1163 | a failing worker of the step system run through to its end ends an active feature with its message, closes its sockets, frees the slot and touches nothing else |
| Uninterrupted.ObservationAlone | server/freebsd_ref/main.cpp:1165-1186 | the same for a worker that observed what was expected |
| Uninterrupted.StartAloneSpelled | server/freebsd_ref/main.cpp:3745-3848 | a start of the step system run alone, after its timeout check, comes to the spelled effect of its scenario kind with the sockets the system hands out |
| Uninterrupted.CompleteAloneSpelled | server/freebsd_ref/main.cpp:3896-3954 | a client report run alone, after its timeout check, comes to its spelled effect; a malformed body to none |
| Uninterrupted.UnsupportedAloneSpelled | server/freebsd_ref/main.cpp:3956-3978 | the same for an unsupported request |
| Server.SummaryJson | server/freebsd_ref/main.cpp:2622-2677 | the loop checks the timeout of every feature in turn; the new executions, slot and closed sockets are given, and the text, letter by letter: under each key of a state the number of executions in that state, and every field of every execution under its own key |
| Spelled.SummarySpelled | server/freebsd_ref/main.cpp:2622-2677 | the text of a summary: each key, in order, with the number of executions it stands for, and complete true exactly when none is pending or active |
| Spelled.FeatureSpelled | server/freebsd_ref/main.cpp:2679-2703 | the text of a feature: each of its sixteen keys with the catalog's value or the field of the execution |
| Spelled.ErrorLetters | server/freebsd_ref/main.cpp:567-571 | the error body has one key, error, with the message |
| Spelled.AddressLetters | server/freebsd_ref/main.cpp:491-500 | the two lists of an address reconfiguration stand behind add_addresses and remove_addresses |
| Requests.CompletionAcceptedIff | server/freebsd_ref/main.cpp:3899-3919 | exactly the bodies that derive from the relaxed grammar and whose last assoc_ids, if any, is a list of strings carry a report |
| Requests.ReportArrives | server/freebsd_ref/main.cpp:3903-3919 | a report printed as JSON is read back field for field, whatever members the client puts before its own |
| Spelled.ReportLettersRead | server/freebsd_ref/main.cpp:3903-3919 | a report with the four keys in letters is read field for field |
| Requests.AssocRefusals | server/freebsd_ref/main.cpp:3910-3918 | association numbers that are no list, and a list with something else than strings, are refused with their two texts |
| Requests.MissingRead | server/freebsd_ref/main.cpp:3903-3919 | a member that is missing or no string reads as the empty string, and missing association numbers as none |
| Requests.MissingWithdrawn | server/freebsd_ref/main.cpp:3969-3972 | the same for a missing member of an unsupported request |
| Requests.WithdrawalArrives | server/freebsd_ref/main.cpp:3959-3972 | an unsupported request printed as JSON is read back field for field, whatever strings the client puts before its own |
| Spelled.WithdrawalLettersRead | server/freebsd_ref/main.cpp:3959-3972 | an unsupported request with its three keys in letters is read field for field |
| Requests.NestedRefused | server/freebsd_ref/main.cpp:878-896 | an unsupported request with a member that is no string is refused with that text |
| Requests.ReadCompletion | server/freebsd_ref/main.cpp:3899-3919 | the handler's reading of a body, with its three error texts, is the specification's |
| Requests.ReadUnsupported | server/freebsd_ref/main.cpp:3959-3972 | the same for the flat body of an unsupported request; a missing member reads as the empty string |
| Utf8.AppendCodepoint | server/freebsd_ref/main.cpp:620-648 | exactly surrogates and values above 0x10FFFF are refused, leaving the buffer alone; otherwise the encoding is appended |
| Utf8.EncSpelled | server/freebsd_ref/main.cpp:620-648 | the bytes of the encoding in each of the four ranges (table of section 3 of RFC 3629) |
| Utf8.DecodeInverts | server/freebsd_ref/main.cpp:620-648 | the concatenated encodings of any sequence of code points decode to that sequence |
| Utf8.EncodeInverts | server/freebsd_ref/main.cpp:620-648 | every decodable byte string is the encoding of what it decodes to, so decoding is unique |
| Utf8.OrderPreserved | server/freebsd_ref/main.cpp:620-648 | encodings compare bytewise as their code point sequences compare lexicographically (section 3 of RFC 3629) |
| JsonGrammar.LastKeyWins | server/freebsd_ref/main.cpp:782 | the map kept for an object has, for each key, the value of its last occurrence |
| JsonGrammar.HexSpelled | server/freebsd_ref/main.cpp:716-733 | four hexadecimal digits of a number, in capitals, small letters or any mixture, are read as that number |
| JsonSpec.AcceptsExactlyRelaxed | server/freebsd_ref/main.cpp:663-862 | the parser accepts a text with a tree if and only if the text derives from the grammar relaxed by isspace white space and raw control bytes, with that meaning |
| JsonSpec.AcceptsStandard | server/freebsd_ref/main.cpp:663-862 | every document of the standard grammar (objects, arrays, strings, object root, no surrogate escapes) is accepted with its standard meaning |
| JsonSpec.UnicodeEscapeReads | server/freebsd_ref/main.cpp:711-737 | an escape of four hexadecimal digits in any case is read as the encoding of its number, and refused for a surrogate |
| JsonSpec.SimpleEscapeReads | server/freebsd_ref/main.cpp:690-710 | each of the eight simple escapes is read as its own byte |
| JsonSpec.OtherEscapeFails | server/freebsd_ref/main.cpp:738-741 | any other byte behind a backslash is refused |
| JsonSpec.RawByteReads | server/freebsd_ref/main.cpp:742-744 | every other byte of a string stands for itself, control bytes too |
| JsonSpec.BrokenUnicode | server/freebsd_ref/main.cpp:712-731 | an escape with fewer than four hexadecimal digits is refused |
| JsonSpec.BrokenString | server/freebsd_ref/main.cpp:684-747 | a string that ends too early, or behind a backslash, is refused |
| JsonSpec.ValueErrors | server/freebsd_ref/main.cpp:842-875 | the error for each start that no value, array or object has, and for what follows the root |
| JsonSpec.Locality | server/freebsd_ref/main.cpp:750-846 | a successful parse depends only on the slice it consumed: what follows that slice may be replaced by anything without changing the value or the slice |
| JsonParser.SkipJsonWs | server/freebsd_ref/main.cpp:663-668 | the cursor stops at the first byte that is not white space, never past the end |
| Bytes.ClassesSpelled | server/freebsd_ref/main.cpp:663-668 | the bytes that count as white space and as digits, by number |
| JsonParser.ParseJsonStringValue | server/freebsd_ref/main.cpp:670-748 | the cursor loop returns the value, the position and the error of the specification, and strictly advances on success |
| JsonParser.ParseJsonObjectValue | server/freebsd_ref/main.cpp:752-801 | the object loop refines the specification, members entering a map in which later keys replace earlier ones |
| JsonParser.ParseJsonArrayValue | server/freebsd_ref/main.cpp:803-839 | the array loop refines the specification |
| JsonParser.ParseJsonValue | server/freebsd_ref/main.cpp:842-862 | the mutually recursive routines terminate on (bytes left, rank) and refine the specification |
| JsonParser.ParseJsonRootObject | server/freebsd_ref/main.cpp:864-876 | a body is accepted exactly when it derives from the relaxed grammar, and then with the grammar's meaning |
| JsonParser.ParseSimpleJsonObject | server/freebsd_ref/main.cpp:878-896 | exactly the accepted objects whose members are all strings are returned, key for key |
| JsonPrinter.JsonEscape | server/freebsd_ref/main.cpp:257-289 | the loop writes the escaped form of the whole string |
| JsonPrinter.EscapeSpelled | server/freebsd_ref/main.cpp:257-289 | what the escaper writes for each of the 256 bytes |
| JsonPrinter.QuoteParses | server/freebsd_ref/main.cpp:291-295 | parsing the quoted form of any byte string gives it back, whatever follows |
| JsonPrinter.RenderParses | server/freebsd_ref/main.cpp:365-377 | for every tree, parsing its rendering gives the tree and consumes exactly the rendering |
| JsonPrinter.RenderInjective | server/freebsd_ref/main.cpp:365-377 | different trees never print alike |
| JsonPrinter.RenderedObjectIsStandard | server/freebsd_ref/main.cpp:567-571 | a rendered object derives from the standard grammar and is accepted by the root parser |
| JsonPrinter.JsonArrayStrings | server/freebsd_ref/main.cpp:365-377 | the comma loop prints the rendering of the array |
| JsonPrinter.JsonRfcReferences | server/freebsd_ref/main.cpp:410-427 | the nested printer prints the rendering of an array of four-member objects |
| JsonPrinter.JsonAddressReconfigContract | server/freebsd_ref/main.cpp:491-500 | the printer prints the rendering of the two-member object |
| JsonPrinter.JsonError | server/freebsd_ref/main.cpp:567-571 | the error body is the rendering of its one-member object and parses back to it |
| JsonPrinter.RenderPrintable | server/freebsd_ref/main.cpp:257-289 | no rendering contains a control byte, so it is one line |
| Sse.Connection.WriteAll | server/freebsd_ref/main.cpp:602-618 | partial and interrupted writes are resumed: everything is sent in order, or a proper prefix after a write that failed or wrote nothing |
| Sse.FormatLines | server/freebsd_ref/main.cpp:2788-2791 | the getline loop writes one data line for every line of the text |
| Sse.WriteSseEvent | server/freebsd_ref/main.cpp:2778-2793 | the event is sent whole, or a proper prefix of it |
| Sse.StreamSummaries | server/freebsd_ref/main.cpp:2752-2775 | the bytes sent are the frames of the polled summaries that differ from their predecessor, with keep-alives between, or a prefix of them when a write fails |
| SseSpelled.EventSpelled | server/freebsd_ref/main.cpp:2778-2793 | the letters of an event with a name and any number of lines |
| SseSpelled.BareEventSpelled | server/freebsd_ref/main.cpp:2778-2793 | an event without data has one empty data line, one without a name has no event line |
| SseSpelled.StreamSpelled | server/freebsd_ref/main.cpp:2745-2775 | the letters of a stream: the retry interval, then for each turn a summary event when the summary has changed, a keep-alive when it is due, or nothing |
| Sse.StreamSummaryEvents | scripts/smoke_feature_server.py:135-157 | the read loop, stripping Unicode white space, returns the first events of the stream, and raises exactly when there are fewer than asked for |
| SseSpelled.BlankStep | scripts/smoke_feature_server.py:142-150 | an empty line reports the event, under the name message if it has none, and forgets name and data |
| SseSpelled.CommentLine | scripts/smoke_feature_server.py:151-152 | a comment is passed over |
| SseSpelled.NameLine | scripts/smoke_feature_server.py:153-155 | an event line gives the name, stripped at both ends |
| SseSpelled.DataLine | scripts/smoke_feature_server.py:156-157 | a data line adds a line, stripped at the front |
| SseSpelled.OtherStep | scripts/smoke_feature_server.py:151-157 | any other line is passed over |
| SseSpelled.ChompSpelled | scripts/smoke_feature_server.py:141 | only line ends are cut from a line |
| SseSpelled.EventsSpelled | server/freebsd_ref/main.cpp:2761 | the delivered events carry the name summary |
| Spaces.StripSpelled | scripts/smoke_feature_server.py:154-157 | stripping removes at either end exactly the characters with the White_Space property and the four separators, by number |
| Sse.FrameReads | scripts/smoke_feature_server.py:142-157 | a written event is read back as that event and leaves the decoder as it was |
| Sse.SummariesDelivered | server/freebsd_ref/main.cpp:2752-2775 | for every sequence of polls and keep-alives the decoder yields exactly the summaries, consecutive duplicates removed, up to the first that is not UTF-8 |
| Sse.AllDelivered | scripts/smoke_feature_server.py:141 | every summary is delivered if and only if all of them are UTF-8 |
| Sse.PartialStreamDelivered | server/freebsd_ref/main.cpp:2745-2748 | a stream cut anywhere delivers an initial part of the summaries and nothing else |
| Sse.DistinctKeeps | server/freebsd_ref/main.cpp:2754-2758 | the delivered sequence has the same summaries and no two equal neighbours |
| SummaryText.SummaryIsOneLine | server/freebsd_ref/main.cpp:2658-2706 | a summary is one line starting with a brace whatever strings its features carry |
| Readability.SummaryDecodes | server/freebsd_ref/main.cpp:257-289 | a printed summary is UTF-8 if and only if every string it was given is |
| Readability.SummariesSurvive | server/freebsd_ref/main.cpp:2622-2775 | every sequence of summaries survives the stream up to the first that is not UTF-8, and whole if and only if all strings in all of them are UTF-8 |
| Views.SummaryLegibleIff | server/freebsd_ref/main.cpp:2679-2703 | with UTF-8 texts of the server's own, a summary is UTF-8 if and only if the messages, evidence, report texts and association numbers of its rows are |
| Views.BadReportText | scripts/smoke_feature_server.py:141 | a report text of the single byte 0xFF makes every summary that shows it undecodable |
| Views.BadReportIsRead | server/freebsd_ref/main.cpp:670-748 | the server accepts a body carrying that report text |
| Views.LaterTurnsPrintAlike | server/freebsd_ref/main.cpp:2760-2764 | in every run in which no start activates an ended feature, each turn of a stream after a complete summary produces the very bytes of that summary |
| Views.CompletionEndsEvents | server/freebsd_ref/main.cpp:2758-2775 | in every such run, a stream yields no event after the first complete summary |
| Http.TrimText | server/freebsd_ref/main.cpp:219-229 | the two scans compute the trimmed text |
| Http.TrimIs | server/freebsd_ref/main.cpp:219-229 | trimming removes exactly the white space at both ends |
| Http.ParseHead | server/freebsd_ref/main.cpp:2408-2439 | the header loop yields verb, path and the map of lower-cased names to trimmed values in which later lines win, or the error |
| Http.ReadHttpRequest | server/freebsd_ref/main.cpp:2386-2454 | the two reading loops compute the result of their recursive specification, for every list of reads and both endings |
| HttpSpelled.LengthDecides | server/freebsd_ref/main.cpp:2424-2453 | a well-formed head whose last Content-Length, its name in any mixture of cases, is the decimal n, with anything behind it and however it is cut: the body is the first n bytes behind the head, and a refusal when there are fewer; without such a field the body is empty |
| HttpSpelled.HeaderSpelled | server/freebsd_ref/main.cpp:2424-2435 | the headers of a request hold, under each name in small letters, the value of the last field with that name in any mixture of cases |
| HttpSpelled.NoHeadRefused | server/freebsd_ref/main.cpp:2391-2407 | a stream in which no head ends is refused: as too large when it has more than 2^20 bytes, else for the timeout or the end |
| HttpSpelled.ShortLineRefused | server/freebsd_ref/main.cpp:2417-2422 | a request line of fewer than three words is refused |
| HttpSpelled.HeadErrors | server/freebsd_ref/main.cpp:2410-2428 | the errors of an empty head and of a bad first line; a line without a colon is passed over |
| Http.HeadLoopSplits | server/freebsd_ref/main.cpp:2391-2407 | whatever the reads, the head ends at the first CR LF CR LF or the first blank line of the stream, at the earlier one unless one read can bring both, or the limit of 2^20 bytes is hit, and then only when the head ends late |
| Http.ReadParsesAtSplit | server/freebsd_ref/main.cpp:2386-2454 | in every stream and for every cutting into reads of 1 to 4096 bytes the result is that of the stream parsed at once with the head that was found |
| Http.ReadIsOneShot | server/freebsd_ref/main.cpp:2386-2454 | in determined streams (no read can bring both separators or pass the limit before the first is seen) the result is that of a one-shot parse, for every cutting |
| Http.CleanSplit | server/freebsd_ref/main.cpp:2391-2392 | without a blank line before the first CR LF CR LF the stream is never ambiguous and the split is the one the search finds in the whole stream |
| Http.BodyIsContentLength | server/freebsd_ref/main.cpp:2440-2453 | in every stream and for every cutting the body of a returned request is exactly the first Content-Length bytes after its head (section 6.2 of RFC 9112) |
| Http.SplitIsDetermined | server/freebsd_ref/main.cpp:2391-2406 | for streams of any length, all cuttings split head and body at the same place if and only if the stream is determined |
| Http.SomeStreamIsNotDetermined | server/freebsd_ref/main.cpp:2391-2392 | there is a stream of seven bytes with two cuttings that split it differently |
| HttpRoundTrip.RequestSurvives | server/freebsd_ref/main.cpp:2386-2454 | a well-formed request (sections 2.1 and 2.2 of RFC 9112) whose head ends early enough is read back verb, path, headers and body, however its bytes are cut |
| HttpRoundTrip.RequestSurvivesIff | server/freebsd_ref/main.cpp:2403-2406 | a well-formed request survives every cutting if and only if it is within the limit or its head ends a read before it |
| Workers.MaterializePayload | server/freebsd_ref/main.cpp:429-446 | the result has length max(size_bytes, payload length) and byte k is payload byte k modulo its length, or all x when the payload is empty |
| Workers.RunReceiveWorker | server/freebsd_ref/main.cpp:1208-1273 | the verdict, with its reason, is a function of the data with notifications erased |
| Workers.ReceiveSucceedsIff | server/freebsd_ref/main.cpp:1221-1273 | success if and only if the data starts with exactly the expected payload, stream and PPID list and, once a message came, enough peer addresses are known |
| Workers.ReceiveSpelled | server/freebsd_ref/main.cpp:1221-1273 | the verdict and its reason from the number of leading messages that are as wanted: too few peers, success, silence, or the first fault in payload, stream or identifier |
| Workers.FaithfulPeerSucceeds | server/freebsd_ref/main.cpp:1251-1262 | of all traces as long as the contract exactly the one delivering the contract's own messages succeeds |
| Workers.RunMultiTargetWorker | server/freebsd_ref/main.cpp:1346-1408 | the sockets are scored in order and the first failure decides |
| Workers.MultiTargetSucceedsIff | server/freebsd_ref/main.cpp:1346-1408 | the verdict is determined, and success if and only if there is a socket per message and what arrives first on each, after any notifications, is the message expected there |
| Workers.MultiTargetSpelled | server/freebsd_ref/main.cpp:1346-1408 | the verdict and its reason from the first socket whose first message is not as wanted |
| Workers.RunPrReceiveWorker | server/freebsd_ref/main.cpp:1276-1342 | the verdict, with its reason, is a function of which payloads occur and of how the receive ended |
| Workers.PrSucceedsIff | server/freebsd_ref/main.cpp:1293-1342 | success if and only if two distinct payloads are expected and only the final one arrived, at least once, before a timeout |
| Workers.PrSpelled | server/freebsd_ref/main.cpp:1276-1342 | the verdict and its reason for every combination of payloads that arrived and every end |
| Workers.RunSendAfterTriggerWorker | server/freebsd_ref/main.cpp:1410-1483 | success if and only if the first data is the trigger as a C string and all sends succeed; the messages sent are the contract's, in order, each materialized |
| Workers.TriggerSpelled | server/freebsd_ref/main.cpp:1410-1450 | the worker goes on exactly when the trigger is empty, or the first message is the trigger, with or without a zero byte behind it |
| Workers.SentSpelled | server/freebsd_ref/main.cpp:1455-1475 | what is sent for a message: its bytes, stream, identifier and delivery mode |
| Workers.MaterializedSpelled | server/freebsd_ref/main.cpp:429-446 | length and bytes of a message, for the uses of it in verdicts |
| Commas.SplitJoin | runner/src/sctp_conformance/runner.py:31-32 | splitting at commas undoes joining, for parts without commas |
| HelperC.StrTok | adapters/freebsd_c/helper.c:184 | one strtok call ends the next token in place, touches one byte, and leaves the rest of the text to be scanned |
| HelperC.SplitCsv | adapters/freebsd_c/helper.c:169-193 | every non-empty piece between commas becomes a C string of its own in the buffer, in order and without overlap, unless one of the allocations it asks for fails |
| HelperC.AllocationsSpelled | adapters/freebsd_c/helper.c:177-188 | the allocations a text asks for: one array of eight, and one for each doubling that its tokens need |
| HelperC.ParseMessages | adapters/freebsd_c/helper.c:246-284 | the in-place parser computes the messages of the text, or refuses more than sixteen tokens, a token without two colons, or a failed allocation |
| HelperC.LoadMessages | adapters/freebsd_c/helper.c:605-610 | the client parses the first 511 bytes of its argument |
| HelperCut.CInvertsIff | adapters/freebsd_c/helper.c:605-610 | for all messages: the C helper recovers the runner's messages if and only if no payload holds a comma or colon, there are at most 16, with payloads under 256 bytes, streams under 2^16 and PPIDs under 2^32, and the encoding is under 512 bytes, or 512 with a last PPID of 0 |
| HelperCut.CDecodes | adapters/freebsd_c/helper.c:246-284 | what the C helper makes of any encoding: the pieces of each message in turn, cut at commas; of one that fills its copy, those of the messages before the cut and of what is left of the one it falls in |
| HelperCut.CDecodesSeparable | adapters/freebsd_c/helper.c:246-284 | without separators in payloads: the messages with truncated payloads, saturated and wrapped numbers, and of a long encoding the messages before the cut and what is left of the next |
| HelperGo.SplitCsv | adapters/go_net/cmd/sctp-helper/main.go:302-315 | the loop keeps the trimmed non-empty pieces in order |
| HelperGo.ParseMessages | adapters/go_net/cmd/sctp-helper/main.go:317-342 | the loop computes the messages of the text, or the error of its first bad item |
| HelperGo.GoInvertsIff | adapters/go_net/cmd/sctp-helper/main.go:302-342 | for all messages: the Go parser inverts the runner's encoding if and only if no payload holds a comma or colon or starts with white space, streams are under 2^16 and PPIDs under 2^32 |
| HelperSpelled.EncodingSpelled | runner/src/sctp_conformance/runner.py:31-32 | the text of a message list: payload, stream and identifier between colons, messages between commas |
| HelperSpelled.CLimits | adapters/freebsd_c/helper.c:605-610 | the limits of the C helper as numbers: 16 messages, payloads of 255 bytes, streams to 65535, identifiers to 4294967295, a text of 511 bytes, or 512 that end in a zero identifier |
| HelperSpelled.GoLimits | adapters/go_net/cmd/sctp-helper/main.go:302-342 | the limits of the Go helper as numbers and as white-space characters |
| HelperGo.TrimSpelled | adapters/go_net/cmd/sctp-helper/main.go:302-315 | what trimming removes at either end: exactly the characters with the White_Space property |
| Decimal.DecSpelled | runner/src/sctp_conformance/runner.py:31-32 | the digits of a numeral, the last one for the ones |
| Decimal.StrToUlSpelled | adapters/freebsd_c/helper.c:246-284 | strtoul of white space, a sign, digits and a rest: the number, bounded by 2^64 - 1, or its negative modulo 2^64 |
| Decimal.CAtoiSpelled | adapters/freebsd_c/helper.c:407-447 | atoi of the same: the number between the bounds of 64 bits, then its low 32 bits as a signed number |
| Decimal.AtoiSpelled | adapters/go_net/cmd/sctp-helper/main.go:317-342 | Atoi of a sign and digits: the number within 64 bits, else an error |
| Decimal.AtoiRefuses | adapters/go_net/cmd/sctp-helper/main.go:317-342 | anything but a sign and digits is an error |
| Helpers.HelpersAgree | runner/src/sctp_conformance/runner.py:31-32 | whenever the C helper recovers the messages, the two helpers read the same if and only if no payload starts with white space |
| Helpers.ColonIsMisread | runner/src/sctp_conformance/runner.py:31-32 | the payload a:b with stream and PPID 0 is encoded; the C helper reads payload a, the Go helper refuses |
| CommandLine.CommandFlags | runner/src/sctp_conformance/runner.py:35-69 | the list grows group by group to the spelling of the endpoint's settings |
| HelperSpelled.FlagsSpelled | runner/src/sctp_conformance/runner.py:35-69 | the flags in letters and in order, with the value of each |
| CommandLine.FlagsParse | adapters/freebsd_c/helper.c:407-447 | parsing the runner's flags, whatever arguments follow them, sets exactly the endpoint's fields |
| HelperSpelled.AddressFlags | adapters/freebsd_c/helper.c:407-447 | what --bind-addrs and --connect-addrs set, whatever follows |
| HelperSpelled.MessageFlags | adapters/freebsd_c/helper.c:407-447 | what --subscribe and --messages set, whatever follows |
| HelperSpelled.OutcomeFlags | adapters/freebsd_c/helper.c:407-447 | what --expect-failure and --read-messages set, whatever follows |
| HelperSpelled.OstreamsFlag | adapters/freebsd_c/helper.c:407-447 | what --init-ostreams sets, whatever follows |
| HelperSpelled.InstreamsFlag | adapters/freebsd_c/helper.c:407-447 | what --init-instreams sets, whatever follows |
| HelperSpelled.AttemptsFlag | adapters/freebsd_c/helper.c:407-447 | what --init-attempts sets, whatever follows |
| HelperSpelled.TimeoutFlag | adapters/freebsd_c/helper.c:407-447 | what --init-timeout sets, whatever follows |
| HelperSpelled.NodelayFlag | adapters/freebsd_c/helper.c:407-447 | what --set-nodelay sets, whatever follows |
| HelperSpelled.LocalAddrsFlag | adapters/freebsd_c/helper.c:407-447 | what --emit-local-addrs sets, whatever follows |
| HelperSpelled.PeerAddrsFlag | adapters/freebsd_c/helper.c:407-447 | what --emit-peer-addrs sets, whatever follows |
| HelperSpelled.OptionsRefused | adapters/freebsd_c/helper.c:407-447 | an argument that is no flag is refused, and a flag whose value is missing; which flags take one |
| CommandLine.ParseOptions | adapters/freebsd_c/helper.c:407-447 | the argv loop computes the options, refusing unknown flags and a flag without its value |
| Helpers.OptionsRecovered | runner/src/sctp_conformance/runner.py:35-69 | the helper accepts the runner's command line, and every field of the endpoint is recovered from it, lists by splitting, the four init values if and only if they fit sixteen bits |

## Left out

- Real sockets, SCTP calls and `create_listening_socket`: an oracle hands out a fresh token or a failure, and workers read an arbitrary trace.
- File descriptor numbers: sockets are unique tokens, so the reuse of a closed number by the system is not modelled.
- Negative descriptors in `active_fds`, which the program skips: no routine stores one.
- The clock is read once in each lock section, except in the timeout check, which reads it twice.
- More than one session: the step system is about one session; sessions share only the mutex that `Locks` models.
- The distinct association check (lines 3927-3935 of main.cpp) is modelled for two expected associations, the only number the catalog uses.
- Bodies of complete and unsupported requests enter the step system already read, or as malformed; `Requests` reads them.
- `iso_time` is an arbitrary function from times to texts; routing, status texts and response headers are left out.
- `SessionJson`, the index page and the table of sessions appear only with their locks; HTML, the feature catalog text and `build_contract` are presentation.
- `json_array_uint8`, `json_bool` and numbers outside summaries: the round trip is about strings, arrays and objects, the only values the parser accepts.
- The stream loop runs for as many turns as there are polls, and its two-second keep-alive clock is part of the input.
- The script's `json.loads` and its queue: events carry the payload bytes; the HTTP response head is consumed by its library.
- A message longer than the receive buffer of a worker arrives as several items of its trace, which is how the code scores it.
- Payloads with a NUL byte, which no command line can carry.
- Reads interrupted by a signal count as failures, as in the code.
- The address, subscription and socket parts of both helpers, and the flags of the Go helper, which a library parses.
- Values of an endpoint that are not 32-bit integers, for which the C conversion is not defined.
- Process handling, staging, profile loading, reports and scenario evaluation of the runner.
