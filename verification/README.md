# Evidence tooling, modelled and proved

Dafny models of the Python tools that collect and judge release evidence: what they accept, in which states they can
be, and what an accepted record implies. `dafny verify dfyconfig.toml` checks the whole project.

| area | files |
|---|---|
| Windows callback inspector (x86-64 decoder, unwind walker, PE reader, control flow, rebuilt proof) | Instructions, Decoder, BranchTargets, OpcodeMap, Unwind, PeImage, ControlFlow, CallbackProof, CallbackRoundTrip, CallbackFacts, CallbackExamples |
| Campaign directory: lock, registrations, fences, seals, crashes | Stages, Campaign, CampaignAdmission, CampaignRuns, CampaignLedger, CampaignSafety, CampaignSteps, Reservation |
| Bounded two-reader capture | Capture, CaptureRecords |
| Windows debug-event observer and its record stream | ImageReceipt, ImageLifetimes, ImageEvents, ImageTurns, ImageObserver, ImageExamples |
| Grading arithmetic | OrderStatistics, TrialGrading, MetricGrading, GradingVerdicts, GradingReports, WallBudgets, WallVerdicts, Quantiles |
| Publication stamps | Stamps |
| macOS loader log, timing windows, frozen closures | LoaderLog, TimingWindows, ImageClosure, ClosureVerdicts |
| Native relocation and staging | Relocation, Destinations, Staging |
| Shared | Wrappers, Bytes, Sets, Paths, Reachability, CallbackReasons |

Code that changes state is modelled by classes and methods with loops, each proved against a function or predicate;
the theorems are lemmas about those. Protocols (campaign, capture) are state machines over single file operations or
locked regions, with every interleaving and a crash after any step. Answers of the operating system (reads, writes,
file lookups, debug events, clocks) are parameters, so the results hold for all of them.

## Where the code does less than its description

* A campaign is meant to stop after an identity issue. A process that is refused the lock still verifies its inputs
  in its final block and can write an identity fence while the owner runs; the owner checks fences only before it
  registers (a comparison once more when it prepares), so it goes on. `FenceStopsExactly` gives the exact condition
  and `ContenderFencesRunningPhase` a run. A phase that itself ends with such an issue, or unsealed, does stop
  everything: `NothingLaunchesAfterFailure`.
* The proof of an accepted callback is meant to re-derive itself. It does exactly when its pdata, unwind and code
  fragments are separate for the ranges that are read (`ProofRoundTrip`); overlapping fragments shadow each other.
  `OverlappingProofRefused` gives an image of 568 bytes whose proof is refused.

## Model

| member | source | states |
|---|---|---|
| Instructions.DecodeSound | tools/native-release-profile/windows_loader_callback.py:171-281 | An accepted instruction is well formed and its encoding is exactly the bytes that were consumed. |
| Instructions.DecodeComplete | tools/native-release-profile/windows_loader_callback.py:171-281 | Every well-formed instruction of the allow list is decoded from its encoding, wherever it stands. |
| OpcodeMap.WellFormedIff | tools/native-release-profile/windows_loader_callback.py:183-281 | The decoder admits exactly the instructions that rows of the opcode map, addressing forms and operand sizes describe, each with its own prefixes: none or an operand size in general, LOCK on OR and CMPXCHG to memory, one mandatory prefix on the three vector moves, padding on the NOP, none on a branch. |
| OpcodeMap.AcceptedIffDescribed | tools/native-release-profile/windows_loader_callback.py:156-294 | A function body is decoded if and only if it is a sequence of instructions that the opcode map describes. |
| OpcodeMap.RowsAreMapped | tools/native-release-profile/windows_loader_callback.py:156-294 | In every accepted decode a row names its opcode, and has a RIP-relative operand exactly where its ModRM byte asks for one, NOP excepted. |
| Decoder.Decode | tools/native-release-profile/windows_loader_callback.py:156-294 | The decoding loop returns the rows of the instruction list that prints to the code, or the reason of the first refusal. |
| Decoder.DecodeIffPrinted | tools/native-release-profile/windows_loader_callback.py:156-294 | The decoder accepts exactly the printed lists of admitted instructions, and returns that list. |
| Decoder.PrefixFree | tools/native-release-profile/windows_loader_callback.py:171-281 | No admitted encoding begins with another one, so a byte string has at most one decoding. |
| Decoder.DecodedRowsTile | tools/native-release-profile/windows_loader_callback.py:156-294 | Accepted rows print back to the function bytes and cover them without gap or overlap, in sizes 1 to 15. |
| Decoder.TilesOrdered | tools/native-release-profile/windows_loader_callback.py:156-294 | Row addresses increase, so an address names at most one row, and every row lies inside the function. |
| Decoder.DecodeResumes | tools/native-release-profile/windows_loader_callback.py:156-294 | Decoding from any row boundary gives exactly the remaining rows. |
| BranchTargets.RowsFollowBytes | tools/native-release-profile/windows_loader_callback.py:178-291 | In every accepted decode the bytes of a row decide its kind (return, jump, conditional, other) and its target: the end of the row plus the signed number in its last one or four bytes. A RIP-relative operand is the end of the row plus the signed displacement behind its ModRM byte. |
| BranchTargets.BranchRoundTrip | tools/native-release-profile/windows_loader_callback.py:275-291 | A branch printed for an address within its reach decodes to one row whose target is that address. |
| BranchTargets.OperandRoundTrip | tools/native-release-profile/windows_loader_callback.py:282-291 | A RIP-relative operand printed for an address decodes to that address; only the operand of a NOP is dropped. |
| Unwind.ValidateUnwind | tools/native-release-profile/windows_loader_callback.py:41-85 | The loop over unwind slots gives the verdict of the recursive reading of the array. |
| Unwind.AcceptedIffDescribed | tools/native-release-profile/windows_loader_callback.py:41-85 | An unwind record is accepted exactly when some list of admitted operations, in never ascending prolog offsets, prints to its array under a valid header. |
| PeImage.LoadHeaders | tools/native-release-profile/windows_loader_callback.py:89-121 | The section loop reads exactly the headers the format prescribes; accepted sections are in bounds and do not overlap in memory. |
| PeImage.ParsedSectionsValid | tools/native-release-profile/windows_loader_callback.py:106-121 | Sections that are accepted one after another do not overlap in memory, end below 4 GiB, and keep their raw data inside the file. |
| PeImage.HeadersSuffice | tools/native-release-profile/windows_loader_callback.py:89-121 | The header bytes alone parse to the headers of the whole image. |
| PeImage.AtWithin | tools/native-release-profile/windows_loader_callback.py:127-137 | A query inside an answered query is answered by the corresponding part of its bytes. |
| PeImage.FragmentsAgree | tools/native-release-profile/windows_loader_callback.py:363-385 | A fragment-backed image never answers differently from the image its fragments were cut from. |
| ControlFlow.Explore | tools/native-release-profile/windows_loader_callback.py:316-345 | The worklist ends, succeeds exactly when execution from the entry never leaves decoded rows, and then returns exactly the reachable rows and the number of reachable returns. |
| ControlFlow.ReachableIsLeastClosed | tools/native-release-profile/windows_loader_callback.py:316-345 | The reachable rows are the least set that holds the entry and every successor of its members. |
| CallbackProof.CheckReferences | tools/native-release-profile/windows_loader_callback.py:316-330 | Branch and RIP-relative operands are judged row by row, and the referenced statics are collected. |
| CallbackProof.InspectImage | tools/native-release-profile/windows_loader_callback.py:303-355 | The imperative inspection returns the proof, or the reason, of the step-by-step inspection. |
| CallbackFacts.AcceptedIsProtected | tools/native-release-profile/windows_loader_callback.py:127-153 | An accepted callback lies in exactly one section, which is executable and not writable; its three statics have their sizes, do not overlap, and lie each in one section that is writable and not executable. |
| CallbackFacts.FunctionEntry | tools/native-release-profile/windows_loader_callback.py:139-153 | The function of a callback is the one entry of the runtime-function table that covers its start; it begins there, and gives its end and its unwind information. |
| CallbackFacts.ProofFields | tools/native-release-profile/windows_loader_callback.py:316-355 | Every field of the proof of an accepted callback: executable, capability, function, described unwind information, digest of the printed rows, and the exact counts of rows, reachable rows and reachable returns. |
| CallbackRoundTrip.Inspect | tools/native-release-profile/windows_loader_callback.py:297-300 | Inspecting executable bytes is inspecting the image their headers describe. |
| CallbackRoundTrip.Validate | tools/native-release-profile/windows_loader_callback.py:387-395 | A proof is rebuilt from its fragments, inspected again and compared with itself. |
| CallbackRoundTrip.AcceptedIsPathSafe | tools/native-release-profile/windows_loader_callback.py:303-355 | On every execution path of an accepted callback each address is a decoded boundary inside the function; every branch and static operand resolves; a return is reachable. |
| CallbackRoundTrip.ValidProofIsPathSafe | tools/native-release-profile/windows_loader_callback.py:387-395 | An accepted proof is path safe for its own fragments and names the executable digest it was checked against. |
| CallbackRoundTrip.ProofRoundTrip | tools/native-release-profile/windows_loader_callback.py:297-395 | The proof of an accepted callback re-derives itself if and only if its pdata, unwind and code fragments are separate for the ranges that are read; otherwise it is refused for the shadowed range. |
| CallbackRoundTrip.DisjointProofRoundTrip | tools/native-release-profile/windows_loader_callback.py:297-395 | When pdata, unwind and code ranges do not overlap, the proof of an accepted callback is accepted and is the same proof. |
| CallbackExamples.OverlappingProofRefused | tools/native-release-profile/windows_loader_callback.py:297-395 | A concrete image with its unwind information inside the runtime-function table: the inspection accepts it, and the validation of its proof is refused for the shadowed range. |
| CallbackExamples.SeparateProofAccepted | tools/native-release-profile/windows_loader_callback.py:297-395 | The same image with its unwind information behind the table: the inspection accepts it, and so does the validation of its proof. |
| Stages.Schedule | tools/consumer-performance.py:234-248 | Single roles in order, or six pairs whose order alternates, with identifier, pair, position and process of every slot. |
| CampaignDirectory.Campaign.Fences | tools/consumer-performance.py:1331-1361 | The two loops report exactly the categories that registrations and fence files raise, for a diagnostic or not. |
| CampaignAdmission.FindsExactly | tools/consumer-performance.py:1274-1361 | The fence check reports a category exactly when a registered phase does (unsealed, or by its issues, unless it is a control that failed on numbers alone and a diagnostic asks) or a fence file does that is not such a control's own. |
| CampaignAdmission.DiagnosticAdmittedIff | tools/consumer-performance.py:1274-1361 | A diagnostic is admitted if and only if every phase is sealed, every control has no issue or failed on numbers alone (issues among numerical, inconclusive and incomplete, one of the first two, none at admission, numerical receipts), no other phase has an identity or cleanup issue, and every fence is that of such a control. |
| CampaignAdmission.QualificationAdmittedIff | tools/consumer-performance.py:1331-1361 | A qualification is admitted if and only if there is no fence, every phase is sealed, no control has an issue and no other phase has an identity or cleanup issue. |
| CampaignSteps.Host.Perform | tools/consumer-performance.py:1331-1745 | Performing the actions of phase processes on the campaign directory, with its exclusive lock file, registrations, fences and seals, is possible exactly when the run goes on, and leaves the state of the run. |
| CampaignSteps.Host.ReadFences | tools/consumer-performance.py:1331-1368 | The fence check of an admission and that of a comparison stop the process exactly when the directory holds a finding for it. |
| CampaignRuns.StepKeepsInv | tools/consumer-performance.py:1541-1745 | Every file operation of every process, a crash or failure at any point, and the removal of a stale lock keep the campaign invariant. |
| CampaignLedger.IssuesExactly | tools/consumer-performance.py:1541-1745 | In every run the issues of a process are exactly those for which one of its actions gave a reason: none is lost or invented. |
| CampaignLedger.AttemptsExactly | tools/consumer-performance.py:1612-1640 | In every run the attempts and launches of a process are counted exactly, and a started attempt without its raw receipt is recorded as such. |
| CampaignLedger.FencesExactly | tools/consumer-performance.py:1690-1745 | In every run each fence on disk has a process with a reason for it (an identity or cleanup issue of its phase, or a registered control that failed), and every reason of a process whose summary is saved has its fence. |
| CampaignLedger.OneQualificationPerCase | tools/consumer-performance.py:1541-1577 | In every run each case is calibrated, controlled and compared by one process at most. |
| CampaignSafety.RunKeepsInv | tools/consumer-performance.py:1541-1745 | The campaign invariant holds after every run of any number of processes. |
| CampaignSafety.AtMostOneOwner | tools/consumer-performance.py:1371-1382 | In every run at most one live process owns the campaign. |
| CampaignSafety.OneCohortPerPhase | tools/consumer-performance.py:1571-1577 | In every run each phase name launches from one process only, and within the slots of its stage. |
| CampaignSafety.NothingLaunchesAfterFailure | tools/consumer-performance.py:1331-1361 | After a registered phase has ended unsealed, or with an identity or cleanup issue, no process launches anything in any continuation. |
| CampaignSafety.FailedControlBlocksQualification | tools/consumer-performance.py:1331-1361 | After a control has ended unsealed or with any issue, no calibration, control or comparison launches any more. |
| CampaignSafety.DiagnosticNeedsNumericalControls | tools/consumer-performance.py:1274-1361 | In every run a diagnostic smoke is admitted only past controls that are sealed and have no issue, or whose issues are numerical, inconclusive or incomplete, with one of the first two, none at admission and receipts that are numerical only. |
| CampaignSafety.FenceStopsExactly | tools/consumer-performance.py:1331-1368 | Once an identity or cleanup fence is written, nothing more launches if and only if no process is past its own fence check with an attempt left. |
| CampaignSafety.StillLaunches | tools/consumer-performance.py:1586-1640 | A process that is past its fence check with an attempt left does launch in some continuation. |
| CampaignSafety.ContenderFencesRunningPhase | tools/consumer-performance.py:1558-1570 | A concrete run in which a contender that was refused the lock writes an identity fence while the owner can still launch. |
| Reservation.Collect | tools/consumer-performance.py:1586-1597 | The block loop admits a block only with room for all its attempts and the final reservation, stops at the first block without room, and a run within its bounds ends 60 seconds before the deadline. |
| Reservation.NoBlockRefused | tools/consumer-performance.py:1253-1256 | With an initial admission of at most 60 seconds and total pauses within the slack of the stage, no block is refused. |
| Reservation.SlackIsExact | tools/consumer-performance.py:104-108 | The slowest run within its bounds completes if and only if its pauses stay within the slack. |
| Reservation.StageReserves | tools/consumer-performance.py:102-108 | One, three or six blocks of one or two attempts leave 675, 150 and 300 seconds for pauses. |
| CaptureProtocol.Capture.Retain | tools/native-release-profile/process_runner.py:264-274 | What fits the shared budget is retained, the rest sets the limited flag, and the main thread is notified exactly when the flag is first set. |
| CaptureProtocol.Capture.EnterRegion | tools/native-release-profile/process_runner.py:258-279 | Each locked region of a reader is the step of the protocol that it stands for, on the shared fields and on the wake-up of the main thread. |
| CaptureProtocol.RunKeepsInv | tools/native-release-profile/process_runner.py:79-125 | The capture invariant holds after every interleaving of the child, the two readers and the main thread. |
| CaptureProtocol.BudgetConserved | tools/native-release-profile/process_runner.py:222-279 | In every interleaving the two buffers and the remaining budget add up to the limit, and each buffer is a prefix of what its pipe delivered. |
| CaptureProtocol.LimitedExactly | tools/native-release-profile/process_runner.py:264-274 | The limited flag holds exactly when more than the limit was handed over, and then exactly the limit is kept. |
| CaptureProtocol.NoLostWakeup | tools/native-release-profile/process_runner.py:82-89 | A sleeping main thread has nothing to act on: the budget is not exceeded and a reader is still alive. |
| CaptureProtocol.CleanRecordIsComplete | tools/native-release-profile/process_runner.py:101-125 | A record with clean cleanup and no output limit holds both streams completely, to their end. |
| CaptureProtocol.LimitedRecordIsExact | tools/native-release-profile/process_runner.py:103-125 | A limited record keeps exactly the limit, as prefixes of the two streams, of which more was written. |
| CaptureProtocol.UntimedRecordIsDrained | tools/native-release-profile/process_runner.py:82-125 | A record that neither timed out nor was limited is written after both readers have finished. |
| CaptureRecords.CleanupOkExactly | tools/native-release-profile/process_runner.py:101-125 | In every run `cleanup_ok` holds if and only if the tree was killed, stopped and reaped with the ends of both pipes counted, and both readers had finished when they were asked, the second one before the cleanup deadline. |
| CaptureRecords.TimedOutExactly | tools/native-release-profile/process_runner.py:79-100 | In every run `timed_out` is decided by the last test of the wait loop: by the clock if the limit was exceeded, by the exit of the child if both readers had finished, and otherwise it is set. |
| CaptureRecords.SleepsExactly | tools/native-release-profile/process_runner.py:82-98 | The main thread goes on waiting exactly before the deadline, within the limit, and with a reader still alive. |
| CaptureRecords.RecordReadings | tools/native-release-profile/process_runner.py:101-125 | The other fields of a record are what flag and buffers were when they were read. |
| CaptureRecords.ReaderEndsForAReason | tools/native-release-profile/process_runner.py:250-279 | A reader ends only after the end of its pipe, a failed read, or a check after the stop; an idle pipe alone never ends it. |
| CaptureProtocol.CompleteRecordExists | tools/native-release-profile/process_runner.py:79-125 | Whatever two streams a child writes, within the limit some run records both of them completely and cleanly. |
| ImageReceipt.Decode | tools/native-release-profile/windows_image_observer.py:154-214 | The loop over records returns the receipt of the recursive decoding. |
| ImageReceipt.FinalIsLast | tools/native-release-profile/windows_image_observer.py:154-214 | An accepted final record is the last record, and every shorter prefix is accepted without one. |
| ImageReceipt.CompleteIff | tools/native-release-profile/windows_image_observer.py:154-214 | A receipt is complete exactly for an accepted stream that ends in a complete final record of a healthy run. |
| ImageReceipt.TruncatedOrExtendedIsIncomplete | tools/native-release-profile/windows_image_observer.py:154-214 | A proper prefix of a complete stream, or a complete stream with data after its end, never gives complete provenance. |
| ImageReceipt.ReceiptBounded | tools/native-release-profile/windows_image_observer.py:154-214 | Whatever the stream, the receipt keeps the image, process, event and output limits. |
| ImageReceipt.ReleasedOnce | tools/native-release-profile/windows_image_observer.py:179-183 | In an accepted stream whose images start unreleased, an image has exactly one release record if it is released, and none otherwise. |
| ImageLifetimes.PinsAreDisjointUnion | tools/native-release-profile/windows_image_observer.py:468-562 | While lifetimes are coupled, the pinned indices are the disjoint union of the live processes' image maps. |
| ImageLifetimes.NothingLeft | tools/native-release-profile/windows_image_observer.py:630-679 | With nothing pinned and no process live, every image was released with its own digest and every process has exited. |
| ImageLifetimes.BindKeeps | tools/native-release-profile/windows_image_observer.py:468-494 | Binding an image at a free base of a live process keeps the coupling of live maps, pins and records. |
| ImageLifetimes.ReleaseKeeps | tools/native-release-profile/windows_image_observer.py:496-505 | Releasing an image whose digest is unchanged keeps the coupling. |
| ImageLifetimes.RemoveKeeps | tools/native-release-profile/windows_image_observer.py:540-544 | Removing an exited process whose images are all released keeps the coupling. |
| ImageObserver.Observer.Emit | tools/native-release-profile/windows_image_observer.py:400-402 | A record is appended to the stream and to what the stream decodes to. |
| ImageObserver.Observer.RetainBlock | tools/native-release-profile/windows_image_observer.py:426-434 | A block is read whole; what fits the output limit is emitted, and the limited flag says whether more was read. |
| ImageObserver.Observer.Pump | tools/native-release-profile/windows_image_observer.py:411-434 | Both pipes in order: what was read grows by exactly the blocks that the open pipes gave, and exactly a failed query or an empty block refuses. |
| ImageObserver.Observer.HashFile | tools/native-release-profile/windows_image_observer.py:365-409 | A file is hashed with a pump before each read; it succeeds exactly when every pump passes within the output limit and the reads do. |
| ImageObserver.Observer.Bind | tools/native-release-profile/windows_image_observer.py:468-494 | An image is admitted exactly within its conditions, and then one image is added: pinned, recorded as loaded by this event with the path and identity that the event named, and entered in its process. |
| ImageObserver.Observer.ReleaseAt | tools/native-release-profile/windows_image_observer.py:496-505 | Succeeds exactly when the file still has its digest; then exactly the image at that base is unpinned and recorded as released with its own digest. |
| ImageObserver.Observer.ReleaseAll | tools/native-release-profile/windows_image_observer.py:540-542 | The exit loop succeeds exactly when every image of the process releases, in the order in which they were loaded, and then releases exactly these. |
| ImageObserver.Observer.Handle | tools/native-release-profile/windows_image_observer.py:507-562 | An event is handled exactly when it is admitted, and then has exactly its effect on stream, pins, live processes and pipes; it is continued as unhandled only for an exception other than the loader breakpoint. |
| ImageTurns.EffectUnique | tools/native-release-profile/windows_image_observer.py:507-562 | The effect of an event on equal lifetimes is determined. |
| ImageTurns.WaitedUnique | tools/native-release-profile/windows_image_observer.py:576-628 | A wait without a failure leads from equal states to equal states. |
| ImageEvents.PumpedMore | tools/native-release-profile/windows_image_observer.py:411-434 | What is read by two sequences of pumps is what is read by one after the other. |
| ImageObserver.Observer.Deliver | tools/native-release-profile/windows_image_observer.py:595-618 | A delivered event is counted; before a failure it is handled, and a failure is recorded exactly when it is not admitted; after a failure it is only counted, and an exiting process forgotten. The cleanup stays clean exactly when a failure could terminate the job and the last part closes its handle, continues the event and keeps the cleanup limit. |
| ImageObserver.Observer.TakeTurn | tools/native-release-profile/windows_image_observer.py:576-628 | A turn records no failure exactly when its pipes, clocks, job and event give none, and then has exactly its effect. A turn that fails, or comes after a failure, goes exactly as the cleanup rules say: with a spoiled cleanup, with the end of the loop, or on to another turn. |
| ImageObserver.Observer.Loop | tools/native-release-profile/windows_image_observer.py:576-628 | The events delivered are those of the turns that came to their wait and the bytes read those of their pumps. There is no failure exactly when the turns lead to the end of the loop without one, and the cleanup is clean exactly when they lead to it with a job that could be terminated, no turn past the cleanup deadline and no failed wait, close or continue. |
| ImageObserver.Observer.Conclude | tools/native-release-profile/windows_image_observer.py:665-679 | The final record ends a stream that decodes to what was recorded; with a complete verdict every delivered event is in it and every image has exactly one release record. |
| ImageObserver.Observer.Run | tools/native-release-profile/windows_image_observer.py:630-679 | For every run the decoder accepts the whole emitted stream; its events are those of the first deliveries, with the lifetimes as the chain of their effects, and its output is what the pumps took, up to the limit. Exactly: nothing failed if and only if launch, every turn and the final job accounting pass; the cleanup is clean if and only if no root was started or the loop ended clean, every pin was closed and a made job has no active process left; and provenance is complete if and only if nothing failed and every pin was closed. Then the stream holds every delivered event and the whole output, and every image has one release record, with its digest unchanged. |
| ImageExamples.CompleteRunExists | tools/native-release-profile/windows_image_observer.py:507-679 | Whatever a root process prints within the limit, a run of its creation and exit passes every turn from launch to end. |
| ImageExamples.LateRunIsClean | tools/native-release-profile/windows_image_observer.py:576-628 | A root that runs into the deadline fails, and is still cleaned up when its job is terminated, its exit is delivered and its pipes end before the cleanup deadline. |
| OrderStatistics.KthAtMost | tools/consumer-performance.py:149-153 | The k-th smallest value is at most x exactly when more than k values are. |
| OrderStatistics.KthPermutation | tools/consumer-performance.py:149-153 | Order statistics depend on the values and not on their order. |
| OrderStatistics.MedianDominated | tools/consumer-performance.py:149-153 | A pointwise bound between two samples bounds their medians. |
| OrderStatistics.MedianTranslates | tools/consumer-performance.py:149-153 | Translating every value translates the median. |
| OrderStatistics.RankedValues | tools/consumer-performance.py:149-153 | Order statistics are the entries of any ascending arrangement of the values. |
| TrialGrading.TrialFindings | tools/consumer-performance.py:1129-1167 | The two loops report the role, pair and median findings in order. |
| TrialGrading.OrderAndDriftWithin | tools/consumer-performance.py:1142-1149 | Medians of three of six values differ by at most the central-four spread. |
| TrialGrading.TrialGradingCollapses | tools/consumer-performance.py:1129-1167 | On a complete balanced schedule there is no finding if and only if both central-four spreads and all six pair differences are within tolerance; order, drift and role medians follow. |
| MetricGrading.InvocationLimits | tools/consumer-performance.py:1117-1126 | An invocation is reported for every metric that is missing or above its ceiling, and for no other. |
| MetricGrading.GradeRows | tools/consumer-performance.py:1170-1223 | Grading reports the schedule, limit and metric issues in order. |
| MetricGrading.ScalarCeilingIsLeast | tools/consumer-performance.py:1040-1051 | The scalar ceiling is the least multiple of the quantum at or above the largest value plus the allowance. |
| MetricGrading.ComparisonRoleDecidedBySpread | tools/consumer-performance.py:1170-1223 | In a comparison the spread of a complete role alone decides its noise, order and drift on a scalar metric. |
| MetricGrading.ResidentRoleDecidedByNoise | tools/consumer-performance.py:1170-1223 | A complete role of a resident metric with its spread within the allowance keeps order and drift; only the noise bound decides. |
| MetricGrading.CalibrationAcceptsItself | tools/consumer-performance.py:1098-1223 | A control on the complete schedule whose two roles repeat the calibration values of every derived metric has no issue. |
| GradingVerdicts.ControlAcceptedIff | tools/consumer-performance.py:1170-1223 | A control has no issue if and only if it is on its schedule and, for every metric, no value is missing or above the ceiling, and: on a trial metric both central-four spreads and every pair are within the tolerance; on any other metric each role has its spread within 15% of its median (at least twice the resolution), medians of positions and of halves within the allowance, and role medians within the allowance. |
| GradingVerdicts.ComparisonAcceptedIff | tools/consumer-performance.py:1170-1223 | A comparison has no issue if and only if it is on its schedule and, for every metric, no value is missing or above the ceiling, and: trial metrics are within tolerance, scalar spreads within the allowance, resident roles steady and even without a regression, and the declared metric improves by more than its allowance. |
| GradingVerdicts.OtherStagesAcceptedIff | tools/consumer-performance.py:1170-1223 | A smoke or calibration has no issue if and only if it is on its schedule and no value is missing or above its ceiling. |
| GradingVerdicts.RankedSpreads | tools/consumer-performance.py:1066-1079 | In any ascending arrangement of six values the central-four spread is the fifth minus the second, and the spread the last minus the first. |
| GradingVerdicts.DerivedIff | tools/consumer-performance.py:1040-1095 | A calibration gives an envelope if and only if it has six admissible values that are steady, or on a trial metric within the tolerance. |
| GradingVerdicts.ScalarEnvelopeIs | tools/consumer-performance.py:1040-1051 | The allowance of a scalar envelope is the larger of the calibration spread and twice the resolution. |
| GradingVerdicts.ResidentEnvelopeIs | tools/consumer-performance.py:1054-1063 | The allowance of a resident envelope is the larger of the calibration spread and the declared floor, and its ceiling the declared one. |
| GradingReports.FindingsExactly | tools/consumer-performance.py:1129-1167 | For any rows, complete or not, the findings of a trial metric are exactly those of both roles, of the pairs and of the role medians: none is lost or invented. |
| GradingReports.IssuesExactly | tools/consumer-performance.py:1170-1223 | For any rows the issues of a phase are exactly those of its schedule, of each missing or too large value, and of each metric. |
| WallBudgets.MedianTwiceIsExact | tools/template-matching-efficiency.py:2163-2167 | Twice the median in integers, also where the median is not an integer. |
| WallBudgets.ControlAllowanceIsLeast | tools/template-matching-efficiency.py:2189-2206 | The control allowance is the least integer at least the empirical allowance and at least 15% of the calibration median. |
| WallBudgets.Schedule | tools/template-matching-efficiency.py:1769-1783 | Every task of every mode and protocol: a runtime task per role, then per workload its processes with every role, with identifier and position. |
| WallVerdicts.EveryTaskScheduled | tools/template-matching-efficiency.py:1769-1783 | Every role runs every process of every workload, at the place and in the position that alternate with the process number. |
| WallVerdicts.ScheduleSizes | tools/template-matching-efficiency.py:1769-1783 | The number of tasks of every mode and protocol. |
| WallVerdicts.RolesAre | tools/template-matching-efficiency.py:1769-1783 | Which roles each mode and protocol runs, the baseline first. |
| WallVerdicts.EveryPreflightScheduled | tools/template-matching-efficiency.py:1769-1783 | Every role starts with its preflight task. |
| WallVerdicts.BudgetedIff | tools/template-matching-efficiency.py:2170-2227 | A calibration gives a budget if and only if it has six values whose spread is within 15% of the larger of their median and twice the coarsest clock. |
| WallVerdicts.BudgetIs | tools/template-matching-efficiency.py:2189-2206 | The empirical allowance of a budget is the larger of the calibration spread and twice the coarsest clock, and its ceiling the largest value plus that allowance. |
| WallVerdicts.RolePassesIff | tools/template-matching-efficiency.py:2264-2304 | The role of a control passes if and only if its six processes, arranged in order, stand in their alternating positions, are below the limit and steady, with medians of positions and of halves within the control allowance. |
| WallVerdicts.UnarrangedFails | tools/template-matching-efficiency.py:2264-2304 | A role that passes has each of its six processes exactly once. |
| WallVerdicts.DifferencesAre | tools/template-matching-efficiency.py:2280-2512 | Bias and benefit compare the true medians, also where these are not integers. |
| WallBudgets.ControlEvidence | tools/template-matching-efficiency.py:2264-2304 | There is no issue exactly when both roles are complete, within ceilings, quiet, without order or drift, and unbiased. |
| WallBudgets.CalibrationPassesControl | tools/template-matching-efficiency.py:2249-2304 | A control whose roles repeat the calibration, in any order of processes, passes limits, noise, order, drift and bias. |
| WallBudgets.QuietRoleKeepsOrder | tools/template-matching-efficiency.py:2444-2465 | A role whose spread is within the allowance fails neither order nor drift. |
| WallBudgets.ComparisonRole | tools/template-matching-efficiency.py:2438-2472 | Complete or not, only the spread and the ceilings of a role can fail: order and drift follow. |
| WallBudgets.Comparison | tools/template-matching-efficiency.py:2425-2512 | There is no issue exactly when both roles are complete, below their ceilings and quiet, and a required improvement shows in the exact medians. |
| WallBudgets.BenefitIsOneSided | tools/template-matching-efficiency.py:2491-2512 | A benefit exceeds 15% of the calibration median and the calibration spread, and cannot pass in both directions. |
| Quantiles.QuantileIsLeast | tools/ocr-text-watch/budgets.py:263-266 | A nearest-rank quantile is the smallest sample with at least the required fraction at or below it. |
| Quantiles.ImplementationsAgree | tools/capture-pacing/report.py:332-336 | The three quantile readers return the same 50th, 95th and 100th percentile in exact arithmetic, at valid indices. |
| Quantiles.QuantilePermutation | tools/ocr-text-watch/budgets.py:263-266 | A quantile does not depend on the order of the samples. |
| Quantiles.QuantilesOrdered | tools/ocr-text-watch/budgets.py:263-266 | Quantiles increase with the percentage, and the last one bounds every sample. |
| Quantiles.PairedQuantile | tools/ocr-text-watch/budgets.py:317-326 | A quantile of paired maxima is at least that of each column, and the paired 90th percentile is at most the larger 95th percentile. |
| Stamps.Analyze | tools/capture-pacing/report.py:367-377 | The gate holds exactly when any two samples of a stream are in order, for any interleaving of streams; the gap count is the sum over neighbours. |
| Stamps.GapsConserved | tools/capture-pacing/report.py:367-377 | In order, the gap count is the sum over streams and epochs of last - first - (count - 1). |
| Stamps.InterleavingIndependent | tools/capture-pacing/report.py:367-377 | The gap count does not depend on how the streams interleave. |
| LoaderLog.ParseLog | tools/native-release-profile/macos_image_observer.py:439-520 | The log parses without a reason exactly when it is closed, and then yields its process, main executable, distinct images and load events in order. |
| LoaderLog.ClosedIs | tools/native-release-profile/macos_image_observer.py:439-520 | A log is closed if and only if its first record is a load, every line is an application line, a canonical load or a reference note of that process, every name of a note is the leaf of a loaded path, at most 4096 images and 16384 loads occur, and the last record is a whole line. |
| LoaderLog.ImagesExact | tools/native-release-profile/macos_image_observer.py:482-500 | The images are exactly the loaded ones, each once. |
| LoaderLog.EventsExact | tools/native-release-profile/macos_image_observer.py:482-500 | Each event names a load line and the position of the image it loaded, in increasing line order. |
| LoaderLog.MainIsFirst | tools/native-release-profile/macos_image_observer.py:480-481 | The main executable is the first image. |
| TimingWindows.FindWindows | tools/native-release-profile/macos_image_observer.py:545-567 | The marker loop succeeds exactly when the timing lines are the three markers of each expected row in order. |
| TimingWindows.ValidateTiming | tools/native-release-profile/macos_image_observer.py:523-586 | Evidence is complete exactly for exact markers in a closed log of the own process and a complete record; it is ok exactly when in addition no dyld line lies strictly inside a window. |
| TimingWindows.WindowsPartition | tools/native-release-profile/macos_image_observer.py:576-581 | Windows are disjoint and increasing, and for each row the lines before, inside and after add up to all dyld lines. |
| ImageClosure.ReparseReceipt | tools/native-release-profile/macos_image_observer.py:820-878 | A receipt is accepted exactly when its own log confirms every summary and every image binding. |
| ClosureVerdicts.AcceptedIff | tools/native-release-profile/macos_image_observer.py:820-878 | A receipt is accepted if and only if its log is closed, every summary names the process and the main executable of the first record, events and images are those of the log, every image is bound, and the main executable is a file of the target and of the observing machine. |
| ClosureVerdicts.FreezesIff | tools/native-release-profile/macos_image_observer.py:896-937 | A closure freezes if and only if there is a receipt, every receipt is accepted, all agree on target, executable, environment, system and loader, no path is retained with two UUIDs or bindings, and at most 4096 images are retained. |
| ClosureVerdicts.FrozenIs | tools/native-release-profile/macos_image_observer.py:896-937 | A frozen closure names what its receipts agree on, collects exactly their images, and lists for each receipt its digest, process and number of load records. |
| ClosureVerdicts.ClosureOkIff | tools/native-release-profile/macos_image_observer.py:946-987 | What the closure check accepts, on the fields of the closure. |
| ImageClosure.Union | tools/native-release-profile/macos_image_observer.py:896-919 | Receipts unite exactly when they share their header, bind each path to one row and keep the image limit; every row is collected once. |
| ImageClosure.UnionOfSet | tools/native-release-profile/macos_image_observer.py:896-919 | Neither the order nor the repetition of receipts changes the verdict, the header or the set of rows. |
| ImageClosure.FrozenOfSet | tools/native-release-profile/macos_image_observer.py:896-937 | Lists of the same receipts, in any order and with any repetition, both freeze or both do not, with the same header and the same set of rows. |
| ImageClosure.CheckClosure | tools/native-release-profile/macos_image_observer.py:946-987 | The closure check accepts exactly bound rows of distinct paths with the main executable as a file of the target. |
| ImageClosure.ValidateClosure | tools/native-release-profile/macos_image_observer.py:922-937 | A closure is frozen exactly from accepted receipts that unite, and every frozen closure passes the closure check. |
| ImageClosure.Reconcile | tools/native-release-profile/macos_image_observer.py:1086-1109 | Every observed image is matched by path and UUID or listed as unbound with its reason, and no other image is listed. |
| ImageClosure.ContributorsReconcile | tools/native-release-profile/macos_image_observer.py:1086-1109 | Every image of every log a closure was frozen from is bound by the closure. |
| ImageClosure.FreezeAndReconcile | tools/native-release-profile/macos_image_observer.py:922-1109 | Reconciling the log of any receipt against the closure frozen from it and others leaves no image unbound. |
| Relocation.DependenciesExact | tools/native-release-profile/prepare_macos.py:80-88 | The imports of a file resolve exactly when each non-system import does, and the map holds those imports with the files they name. |
| Relocation.DependencyIs | tools/native-release-profile/prepare_macos.py:43-50 | An import resolves to a file exactly when the path it stands for does (its own, or what follows `@rpath/` or `@loader_path/`, from the directory of its source), and it is a regular file. |
| Relocation.Inventory | tools/native-release-profile/prepare_macos.py:53-78 | The worklist ends; its result is exactly the non-system closure of the library under distinct names and within the limits, and a refusal before the deadline means there is no such closure. |
| Relocation.CopyAll | tools/native-release-profile/prepare_macos.py:79-106 | Every inventoried file is copied once under its own name with rewritten imports; no copy collides and no developer import survives. |
| Relocation.RewrittenImportsResolve | tools/native-release-profile/prepare_macos.py:91-106 | Each rewritten import of a copy resolves to the copy of the file that the original import resolved to; system imports stay. |
| Relocation.EdgesKept | tools/native-release-profile/prepare_macos.py:91-106 | The dependencies of a copy are, by name, the dependencies of its source. |
| Relocation.CopiesAreTheClosure | tools/native-release-profile/prepare_macos.py:53-106 | Following rewritten imports from the copy of the library opens every copy and nothing else. |
| Destinations.RejectCollisions | tools/native-release-profile/staging.py:422-435 | Destinations are accepted exactly when their case-folded component sequences are distinct and prefix-free. |
| Destinations.FoldsEqual | tools/native-release-profile/staging.py:422-428 | Two ASCII destinations fold to the same text exactly when they are the same but for the case of letters. |
| Destinations.CreatableIffPrefixFree | tools/native-release-profile/staging.py:623-638 | Files can be created exclusively in an empty directory, in any given order, exactly when their paths are prefix-free, and then the tree holds those files and the directories above them. |
| Destinations.CaselessIsStricter | tools/native-release-profile/staging.py:422-435 | Destinations that do not collide without case do not collide with it. |
| Staging.Sink.Write | tools/native-release-profile/staging.py:528-535 | A chunk is written completely for any sizes that the write calls report, zero included; a failure leaves an initial part. |
| Staging.Stream | tools/native-release-profile/staging.py:546-573 | For any read and write sizes a copy passes exactly for the declared length and digest and is then equal to the source; otherwise at most the declared bytes of an initial part are written. |
| Staging.Inspect | tools/native-release-profile/staging.py:137-151 | The inspection passes exactly when every source is found with its declared size and rows of one source are all shipped with equal metadata. |
| Staging.Destination.PrepareDestination | tools/native-release-profile/staging.py:623-638 | The parents of a path are created or found to be directories. |
| Staging.Destination.StageFiles | tools/native-release-profile/staging.py:118-174 | Without raising calls, staging into an empty directory succeeds exactly for what can be staged; the tree then holds exactly the declared files, the byte limit is kept on every outcome, and nothing is written before every source is inspected. |
| Staging.RefusedCannotBeStaged | tools/native-release-profile/staging.py:422-435 | A declaration refused for a collision cannot be staged on a file system that ignores case, and every other one can. |

## Left out

- SHA-256 and canonical JSON: digests are parameters, serialised documents are compared as values.
- Text: regular expressions, decoding and path normal forms; logs, markers and stamps are modelled from tokenized lines, path rules as parameters.
- System calls, process trees, clocks and `codesign`: inputs of the models; what they return ranges over all values.
- Schema checks (`validate_plan`, `admission`, `trial_check`, `replay_check`, `validate_capability` types, receipt field types): flat field comparisons.
- `_validate_entries`: field rules, duplicate identifiers, duplicate sources and notices; staging starts from its canonical rows. Forbidden characters and reserved device names of a path part are not needed: the results hold for every ASCII path without empty or dot components.
- `write_package_archive`, `snapshot_executable`, `_sizes`: a sorted copy, a single copy and a sum; they would add easy members.
- Staging.Sink.Write: write calls that report zero bytes for ever are excluded by their type; the loop then never ends.
- Relocation.Inventory: an equal name in another letter case, which a case-insensitive file system would refuse when the copy is created, is not modelled; nor are rpaths, byte copying and signing.
- CampaignRuns.StepKeepsInv: issues are kept as categories, without reasons, digests and evidence references; the generator between two file operations is one step.
- CampaignSteps.Host.Perform: the content of a registration is its process; the plan digest it names is not modelled.
- CaptureProtocol.RunKeepsInv: a region that holds the lock is one step; a reader that dies of an exception stands for a failed read, and text decoding of the buffers is not modelled; nor are the exit code and the accounting of the record.
- ImageObserver.Observer.Run: exit codes, timings and hash counters of the final record are not modelled; a failure to close the job handle after the final accounting, which ends the run without a final record, is not modelled.
- ImageObserver.Observer.ReleaseAt: at process exit the model also takes the released base out of the exiting process's map, which the source drops as a whole right after.
- MetricGrading.GradeRows: exact rationals are reals; that resident bytes are integers is a schema check and is not modelled.
- WallBudgets.ControlEvidence: one wall metric at a time; resource ceilings, unavailable metrics, protocols one to three and the work-ownership gates are not modelled. The noise ratio is taken exactly, not in floating point.
- WallBudgets.Comparison: one wall metric at a time; the functional checks of work counters and the listing of medians are not modelled.
- Quantiles.ImplementationsAgree: `math.ceil(0.95 * count)` is taken exactly; floating-point rounding of the product is not modelled.
- Stamps.Analyze: only the stamp loop of `analyze_case`; its other gates are single comparisons.
- LoaderLog.ParseLog: retained diagnostics of a broken log (unknown lines, foreign processes) and which of several problems is named.
- ImageClosure.ReparseReceipt: receipts with an unsuccessful exit (`validate_discovery`) and the two live re-bindings of `observe` are not modelled.
- CallbackProof.InspectImage: the capability's statics are visited in one fixed order; instruction semantics beyond length, kind and target are not modelled.
- Reservation.Collect: a block that stops early because of an issue is part of the campaign runs, not of the time line.
- OCR campaign plumbing, `qualify.py`, `consumer_runtime.py`, `windows_loader_observer.py`, toolchain setup, shims and the Rust crates: not part of this model.
