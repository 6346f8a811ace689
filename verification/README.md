# zen-claw: verified models of its state machines and kernels

zen-claw is an agent runtime: a Python loop that routes a message, calls a language model, checks and
executes tools, remembers and compresses the conversation, and a Go daemon (`sec-execd`) that runs
shell sessions for it. This project models the parts whose correctness depends on history: who did
what before, in which order, and what was on disk when the process stopped.

Each component is one module. Code that mutates an object or runs a loop is a class or a method,
proved equal to a specification function on values; the whole-run theorems are about those functions.

| file | component |
|---|---|
| `SessionRecord.dfy`, `SessionManager.dfy`, `SessionRuns.dfy`, `SessionOutcome.dfy`, `SessionGuarantees.dfy` | exec sessions of the Go daemon: the record, the manager, every interleaving of starts, clients, streams, lifecycle and collection, how a session ends and why, and what input and output promise over whole runs |
| `ApprovalGate.dfy`, `ExecuteLoop.dfy` | approvals for sensitive tools with write-through persistence and crashes; the execute/reflect loop that consumes them while the rest of the program uses the gate too |
| `AdaptiveRouting.dfy`, `RoutingExtremes.dfy`, `CoveredRanges.dfy` | the routing feedback loop (Safety Valve, history, crystallized routes), how sharp its bounds are and where they fail, and its interval-union kernel |
| `JsonText.dfy`, `CanonicalJson.dfy`, `RuntimeAgreement.dfy` | canonical JSON as a printer with a parser, and where JavaScript and Python print alike |
| `GatewayEnvelope.dfy`, `SecurityEnvelope.dfy`, `EnvelopeReading.dfy` | envelope sealing and verification, context normalisation, and reading an emitted envelope back |
| `IntentCache.dfy` | the LRU+TTL response cache |
| `SkillInstall.dfy`, `SkillStore.dfy`, `ZipExtract.dfy` | journaled skill installation with crash recovery, its installer object, and safe archive extraction |
| `ContextCompression.dfy`, `ContextTruncation.dfy` | rolling summaries and token-budget truncation |
| `MemoryRecall.dfy` | ternary recall and budgeted selection |
| `Calendar.dfy` | the daylight-saving fallback of the time tool |
| `Options.dfy`, `Sorting.dfy`, `Text.dfy` | optional values, the stable sort and the `strip`/`lower`/whitespace functions the others use |

## Where the code does less than its design says

These are stated as theorems: the exact condition under which the design holds, and inputs on which it
does not.

- The history update alone does not keep its window of 20 recent outcomes
  (`AdaptiveRouting.UpdateKeepsWindowIff`, `AdaptiveRouting.UngatedRunOverrunsWindow`); over sessions
  it does, because the valve stops an intent after 6 failures (`AdaptiveRouting.FailuresBounded`).
- History is recorded under the stripped intent name and looked up under the name as it is. The bound of
  6 holds for a name in every registry of modest routes if and only if stripping leaves the name alone
  (`RoutingExtremes.BoundHoldsIffTidy`), and in every history if and only if raw confidences stay at or
  below 80/79 (`RoutingExtremes.ModestIsExact`).
- Retirement has the same split: failures in a row are recorded under the stripped route name and looked up
  under the name as it is. With one route of the default confidence, the route keeps to its limit over all
  sessions if and only if the limit is at least 1 and stripping leaves the name alone, or the name is blank
  and the limit not negative, or the limit is 6 or more (`RoutingExtremes.LimitHoldsIff`). A route whose name
  stripping changes to something not blank never retires and can fail six times in a row
  (`RoutingExtremes.UntidyRouteNeverRetires`).
- In a larger registry a route keeps to its limit, and retirement is final, when it stands alone under its
  name (`AdaptiveRouting.RetirementIsFinal`). `register` accepts repeated names, and then the stricter twin
  comes back (`RoutingExtremes.TwinRevives`).
- A kill cuts a session's input off for good if and only if the process was attached already
  (`SessionGuarantees.KillCutsInputIff`).
- Normalising is not idempotent for a blank, non-empty origin surface with a channel; it is in every other
  case, for the emitted envelope as a whole (`EnvelopeReading.EnvelopeIdempotentIff`), and always from
  the second pass on (`SecurityEnvelopes.SettlesAfterTwoPasses`).
- JavaScript sorts keys by UTF-16 unit, Python by code point, and JavaScript keeps the digits of integers
  only up to 2^53 - 1 for certain. The canonical texts agree if and only if no object holds two clashing
  keys and the engine prints every integer exactly (`RuntimeAgreement.RuntimesAgreeIff`); they never agree
  on a value with an integer of 22 digits or more (`RuntimeAgreement.HugeIntegersDisagree`).
- An empty summary reply drops the messages it should have covered from the next prompt, and nothing
  else does (`ContextCompression.SeamlessIff`); the token-budget trigger never advances the summary
  (`ContextCompression.TokenTriggerNeverMoves`).
- A conversation whose system text had to be cut fits its budget if and only if the latest message leaves
  77 tokens; any other fits if and only if what remains after dropping does with the drop notice written
  into it (`ContextTruncation.TruncateFitsIff`). The notice itself can break a budget that dropping had
  reached (`ContextTruncation.NoticeOverrunIff`). Every budget is overrun by some conversation: below the
  threshold by a cut (`ContextTruncation.MinimumCanOverrun`), above it by the notice
  (`ContextTruncation.NoticeCanOverrun`).
- An approval write cut short by a crash loses every stored approval (`ApprovalGates.CrashLoss`); it never
  lets one approval run two calls.
- An overwrite copies over whatever a failed install or an uninstall left behind and then clears the
  journal. Its directory holds exactly the files of completed installs if and only if it brings every
  damaged file anew (`SkillInstalls.InstallIsWholeIff`); a half-written file can survive every recovery
  (`SkillInstalls.HalfFileSurvives`). With a guard on the journal and the residue, crash safety is
  unconditional (`SkillInstalls.GuardedCrashSafe`).
- A journal write cut short by a crash makes recovery keep a partial skill directory
  (`SkillInstalls.TornJournalKeepsPartialCopy`), and an interrupted overwrite removes the old version
  instead of restoring it (`SkillInstalls.OverwriteIsNotRolledBack`).
- The two ternary classifiers disagree exactly on the reject threshold (`MemoryRecall.ClassifiersAgreeIff`).
- The handler of a mid-turn reload reads an attribute that the exception class does not set
  (`zen_claw/agent/loop.py:2999`, `zen_claw/errors.py:31-39`), so a reload is modelled as the exception it
  becomes: the batch is aborted.

## Model

| member | source | states |
|---|---|---|
| SessionRecords.OwnerCheckMeaning | go/sec-execd/main.go:516-536 | the three-way owner check accepts a caller if and only if the owner tuple matches and the record has not expired |
| SessionRecords.StarterIsAccepted | go/sec-execd/main.go:1848-1870 | the caller that started a session passes its owner check exactly until timeoutSec seconds, in milliseconds, after the start |
| SessionRecords.SessionRecord.AppendOutput | go/sec-execd/main.go:2351-2371 | a chunk extends Stdout up to the limit and raises Truncated when something did not fit, nothing else changes |
| SessionRecords.SessionRecord.EndProcess | go/sec-execd/main.go:1954-1990 | the lifecycle's last section: finish time set, stdin closed, and the status, error code and exit code that `SessionOutcomes.FinalStatus` tells from the run |
| SessionRecords.SessionRecord.RequestKill | go/sec-execd/main.go:2045-2064 | a kill of a running record marks it, closes stdin and reports true; of a terminal one changes nothing |
| SessionRecords.SessionRecord.SendSignal | go/sec-execd/main.go:2411-2435 | for every signal and process state: delivered or not, with which code, and marked as killed exactly by a terminate or kill signal to a running process |
| SessionRecords.SessionRecord.Resize | go/sec-execd/main.go:2437-2453 | a running terminal session takes exactly the rows and columns asked for when both are positive; otherwise nothing changes and the code says why |
| SessionRecords.SessionRecord.WriteInput | go/sec-execd/main.go:2393-2409 | input reaches the pipe if and only if the session runs with its stdin open; how many bytes went through and which code tells a refusal from a broken pipe |
| SessionRecords.SessionRecord.ReadChunk | go/sec-execd/main.go:2373-2391 | the bytes from the clamped cursor on, at most as many as asked for (1024 without a positive limit), and the cursor behind them |
| SessionManagers.SessionManager.GcExpired | go/sec-execd/main.go:2265-2281 | the deletion loop removes exactly the terminal records that finished more than the retention ago and leaves every other record untouched |
| SessionManagers.SessionManager.DrawId | go/sec-execd/main.go:1848-1870 | the counter gives the next id before the lock is taken; no record in the map changes |
| SessionManagers.SessionManager.Register | go/sec-execd/main.go:1875-1878 | the locked section inserts the drawn record and removes exactly the others that are past retention |
| SessionManagers.SessionManager.StartSession | go/sec-execd/main.go:1841-1879 | a start is these two steps, with a fresh record |
| SessionManagers.SessionManager.GetForOwner | go/sec-execd/main.go:2006-2018 | a session is found if and only if it survives collection and the caller passes the owner check |
| SessionManagers.SessionManager.ListForOwner | go/sec-execd/main.go:2031-2043 | the listing is exactly the caller's unexpired sessions, and the listing that `SessionGuarantees.OutputIsSecret` speaks about |
| SessionManagers.SessionManager.Admit | go/sec-execd/main.go:2106-2124 | the common prologue (collect, look up, check the owner, collect and look up again) ends in exactly one of three verdicts |
| SessionManagers.SessionManager.KillForOwner | go/sec-execd/main.go:2066-2077 | a kill by a rejected caller changes nothing; by an accepted one it is the record's kill section; what it returns is the answer of the run model |
| SessionManagers.SessionManager.SignalForOwner | go/sec-execd/main.go:2193-2211 | the signal section runs exactly when the caller was granted access, which implies the owner check; code and delivery are the record's own answer, otherwise nothing but collection happens |
| SessionManagers.SessionManager.ResizeForOwner | go/sec-execd/main.go:2244-2263 | the same for resizing |
| SessionManagers.SessionManager.ReadForOwner | go/sec-execd/main.go:2145-2162 | a chunk is returned exactly to granted callers, who passed the owner check, and is the record's own; nothing but collection happens |
| SessionManagers.SessionManager.WriteForOwner | go/sec-execd/main.go:2106-2123 | input goes to the record of granted callers only, with the record's own answer; a refused caller writes nothing |
| SessionManagers.SessionManager.Advance | go/sec-execd/main.go:1880-1990 | every section of the goroutines (failures before start, attach, chunks, stream ends, deadline, exit) is the step of that name on its own record |
| SessionManagers.SessionManager.Deliver | go/sec-execd/main.go:2338-2349 | a streamer's chunk reaches its own record only |
| SessionManagers.SessionManager.RecordExit | go/sec-execd/main.go:1954-1990 | a process end reaches its own record only |
| SessionRuns.HealthyAlways | go/sec-execd/main.go:1848-1991 | in every interleaving: terminal iff FinishedAtMs is set iff the lifecycle ended, terminal records have no stdin, kill-marked terminal records are not "done" |
| SessionRuns.Lifecycle | go/sec-execd/main.go:1848-1991 | between any two moments of any run: terminal records are frozen, kill marks stay, Stdout only grows by extension, owner, limits and expiry never change |
| SessionRuns.KilledNeverDone | go/sec-execd/main.go:2045-2064 | after a successful kill, or a terminate or kill signal to a running process, the session never ends "done" |
| SessionOutcomes.RunsUntilItEnds | go/sec-execd/main.go:1848-1991 | from the draw of its id a session is running exactly until one of its ends occurs |
| SessionOutcomes.FinalStatus | go/sec-execd/main.go:1880-1990 | how it ended, told by what came before: done iff its process exited cleanly with no granted kill, no terminating signal and no earlier deadline; timed out iff the deadline came before any kill; failed with the delivered exit code, or because it never started; killed otherwise; with the error code of each |
| SessionOutcomes.RunningMeans | go/sec-execd/main.go:2045-2453 | while it runs, input reaches the process exactly between its attachment and a kill, and the dimensions are the last its owner set on a terminal session |
| SessionOutcomes.WhatCanHappen | go/sec-execd/main.go:1880-1990 | while it runs: a failed or successful start until it is attached, output of a stream until that stream ended, its process's end after both, and its deadline at any time |
| SessionRuns.RemovalExplained | go/sec-execd/main.go:2265-2281 | a record that is gone was removed by a collection that saw it terminal and past retention |
| SessionRuns.GrantedIff | go/sec-execd/main.go:2106-2124 | access is granted if and only if the owner tuple accepts the caller, the session has not expired, and the record survives both collections |
| SessionRuns.PrologueAnswers | go/sec-execd/main.go:2106-2263 | absent, rejected or the record's own answer: what a client is told is decided by the verdict, for every operation |
| SessionRuns.IdsNeverReused | go/sec-execd/main.go:1848-1878 | an id whose record is gone never comes back, however starts draw and insert |
| SessionRuns.CaptureRefines | go/sec-execd/main.go:2338-2371 | output capture keeps refining "first maxOutput bytes in arrival order" over any continuation |
| SessionRuns.SessionOutput | go/sec-execd/main.go:2338-2371 | from the draw of its id to any later moment Stdout is the first maxOutput bytes that arrived on either stream, and Truncated holds iff more arrived |
| SessionRuns.PollProgress | go/sec-execd/main.go:2373-2391 | feeding NextCursor back keeps the buffer a prefix, progresses while bytes remain, and a short chunk means the end was reached |
| SessionRuns.ReaderHoldsPrefix | go/sec-execd/main.go:2373-2391 | polls interleaved with any steps, from before the record is inserted, always hold a prefix of Stdout |
| SessionRuns.TerminalShortReadCompletes | go/sec-execd/main.go:2145-2162 | a short chunk with a terminal status completes the output for good |
| SessionRuns.OwnerNonInterference | go/sec-execd/main.go:2006-2263 | deleting every record operation of foreign callers from a run changes neither presence nor any field of the session |
| SessionGuarantees.OutputIsSecret | go/sec-execd/main.go:2006-2263 | replacing what a session prints changes no answer and no listing for a caller its owner does not accept, over whole runs |
| SessionGuarantees.ClosedForGood | go/sec-execd/main.go:2045-2064 | once a process is attached and its input closed, no later step opens it |
| SessionGuarantees.KillCutsInputIff | go/sec-execd/main.go:2045-2064 | a kill makes every later write fail if and only if the process was attached before |
| SessionGuarantees.TerminalTakesNoInput | go/sec-execd/main.go:2393-2409 | a finished session never takes input again |
| ApprovalGates.ApprovalGate.constructor | zen_claw/agent/approval_gate.py:118-134 | start and restart load what the store holds; an unreadable store counts as empty |
| ApprovalGates.ApprovalGate.RequestApproval | zen_claw/agent/approval_gate.py:140-222 | appends one pending record under the fresh id and writes it through |
| ApprovalGates.ApprovalGate.Decide | zen_claw/agent/approval_gate.py:293-306 | the record of the normalised id is decided if and only if it is pending, and no other record changes |
| ApprovalGates.ApprovalGate.ExpireOld | zen_claw/agent/approval_gate.py:308-328 | expires exactly the pending records created more than the limit ago, and changes nothing else |
| ApprovalGates.ApprovalGate.Get | zen_claw/agent/approval_gate.py:232-235 | expires first, then finds the record by its normalised id, or says there is none |
| ApprovalGates.ApprovalGate.ConsumeApproved | zen_claw/agent/approval_gate.py:245-274 | a record is returned if and only if one is approved for the same session, the same tool and the same arguments; it is the first such, and it is gone afterwards; else nothing changes |
| ApprovalGates.InvAlways | zen_claw/agent/approval_gate.py:245-345 | the bookkeeping invariant over requests, decisions, expiry, consumption, execution and crashes anywhere, including inside a write |
| ApprovalGates.OneApprovalOneExecution | zen_claw/agent/approval_gate.py:245-345 | no approval record authorises two executions, and each execution has the session, tool and arguments of a request that was approved and is no longer in the dictionary |
| ApprovalGates.ExecutionsAreTraced | zen_claw/agent/approval_gate.py:140-306 | every execution goes back to three steps of the run in this order: a request with its session, tool and arguments, an approval of that request, and a consumption for the same three |
| ApprovalGates.CrashDropsHandOvers | zen_claw/agent/approval_gate.py:245-274 | after a crash nothing executes before another consumption |
| ApprovalGates.RequestsConserved | zen_claw/agent/approval_gate.py:140-345 | per session, tool and arguments: requested = pending + approved + denied + expired + consumed + lost to crashes |
| ApprovalGates.CrashLoss | zen_claw/agent/approval_gate.py:330-345 | exactly what a crash loses: the request it interrupts, or everything when the write is torn |
| ApprovalGates.DecidedStaysDecided | zen_claw/agent/approval_gate.py:293-328 | a record that is no longer pending is never changed again, only consumed |
| ExecuteLoop.OneShotWidensExactly | zen_claw/agent/loop.py:2120-2138 | a contract widened by a one-shot approval admits exactly the approved tools and those it allowed and did not deny, in terms of set membership alone, which agrees with passing the approval to the check |
| ExecuteLoop.SeekApproval | zen_claw/agent/loop.py:2862-2987 | an approval waiting for exactly this call leaves the gate and is used up by its execution, and without one nothing is executed; a call left for approval leaves a new pending request with its session, tool and arguments; the gate moves along a run of its own machine |
| ExecuteLoop.HandleCall | zen_claw/agent/loop.py:2832-3066 | one call runs if and only if its tool is in the one-shot set, or allowed and not denied, or there is no contract or name, and, when the gate watches it, an approval for its rewritten arguments waits; what a call that does not run is told, when the gate was asked and with which request; aborted at any point that can raise; counters move by one |
| ExecuteLoop.RunBatch | zen_claw/agent/loop.py:2828-3066 | results answer a prefix of the calls in order; the new executions are those of an increasing choice of the reached calls, each at most once, with rewritten arguments and inside the contract; every call outside the contract is told so, every other one that did not run was watched by the gate, and the ones that ran are answered with their tool's outcome; a batch ends early exactly on a request for approval, by the gate, which then holds it, or by a tool, or on an abort; every execution is permitted and backed, whatever others do with the gate meanwhile |
| ExecuteLoop.ChatWithFallback | zen_claw/agent/loop.py:2652-2693 | a second provider call if and only if the first reports an error and a different fallback is configured and allowed; reply and model are then those of the fallback |
| ExecuteLoop.Interfere | zen_claw/agent/approval_gate.py:140-306 | decisions, expiry, requests and consumption by others change the records as stated, keep the loop's record sound and are steps of the gate's machine |
| ExecuteLoop.RunLoop | zen_claw/agent/loop.py:2741-3133 | turn by turn, with others at work at every await: it goes on exactly while replies ask for tools and nothing stops it, and answers exactly when a turn concludes; provider calls are the turns, one for the first fallback, and one synthesis on xbench; one reflection per turn with a failed result, up to the limit; the executions are those of its turns, and the gate's history is one of its own runs |
| ExecuteLoop.StumbledCounts | zen_claw/agent/loop.py:3071-3085 | the turns a reflection is due for are those that asked for tools, were not stopped and hold a failed result |
| ExecuteLoop.SoundMeans | zen_claw/agent/loop.py:2861-2991 | each sensitive execution used up its own approved request of the same session, tool and final arguments, which is consumed and gone |
| ExecuteLoop.SoundIsInside | zen_claw/agent/loop.py:2842-2858 | every executed tool is a one-shot tool, or one that the contract allows and does not deny |
| AdaptiveRouting.EvaluateSafetyValve | zen_claw/agent/intent_router_declarative.py:355-438 | each reason in numbers: several candidates, a pronoun, at least 45% of 16 or more characters left over, 28 or more characters and twice the typical length, weighted confidence below 0.8, in this order; the penalty arithmetic sets the final confidence and never the decision |
| AdaptiveRouting.Session.RecordOutcome | zen_claw/agent/loop.py:1823-1856 | the in-place history update is the stated function of the intent's counters and touches no other intent |
| AdaptiveRouting.Session.UpdateControlState | zen_claw/agent/loop.py:1814-1886 | only direct outcomes of candidates teach the session; anything else only clears the last rule |
| AdaptiveRouting.Session.HandleTurn | zen_claw/agent/intent_router.py:149-189 | one turn is a step of the feedback loop, routed on the current history; `AdaptiveRouting.DirectIff` and the three lemmas after it say what that step does |
| AdaptiveRouting.DirectIff | zen_claw/agent/intent_router_declarative.py:191-296 | a turn runs an intent directly from its declaration if and only if it corrects no remembered rule, no live route with a registered target comes first, exactly one registered intent matches, which is not hybrid, the message carries no pronoun, residual or length signal, and 0.9 times its history confidence reaches 0.8; from a crystallized route if and only if it is the first live matching one and the same holds of its target and its raw confidence |
| AdaptiveRouting.ConfidenceMeans | zen_claw/agent/loop.py:1823-1856 | the history confidence without divisions: 1 for an intent that never ran, else recent and lifetime success weighted 7 to 3 |
| AdaptiveRouting.DirectRunTeachesIntent | zen_claw/agent/loop.py:1833-1856 | a direct run counts once for the stripped intent, as success or failure as its tool tells, and past 20 recent runs one is forgotten |
| AdaptiveRouting.DirectRunTeachesRoute | zen_claw/agent/loop.py:1866-1884 | and for at most one route, the stripped one: its runs, failures and failures in a row until the next success |
| AdaptiveRouting.FirstLiveIsFirst | zen_claw/agent/intent_router_crystallized.py:63-79 | the crystallized candidate is the first route that matches and is not retired |
| AdaptiveRouting.OnlyDirectRunsTeach | zen_claw/agent/loop.py:1814-1886 | a turn that does not run a candidate directly leaves all history as it was and forgets the last rule; a direct run touches one intent and is remembered; a correction of a remembered rule never runs |
| AdaptiveRouting.DirectNeedsConfidence | zen_claw/agent/intent_router_declarative.py:222-296 | a direct run implies history-weighted confidence of at least 0.8 and a live route |
| AdaptiveRouting.ExhaustedHistoryIsRefused | zen_claw/agent/intent_router_declarative.py:398-422 | from 6 failures on no candidate of raw confidence up to 80/79 passes the valve, from 4 on no declarative one, in every history the update function can produce |
| AdaptiveRouting.SessionBounds | zen_claw/agent/loop.py:1823-1856 | in every session the recent window of an intent whose name is its own forgets no failure, stays within 20, and the history counts exactly its direct failures |
| AdaptiveRouting.HistoryCountsFailures | zen_claw/agent/loop.py:1823-1856 | in every registry and session, with or without the valve's help, no failure is forgotten and every direct failure of a tidy name is counted, exactly once if no sibling is stripped to it |
| AdaptiveRouting.FailuresBounded | zen_claw/agent/loop.py:1823-1856 | from an empty history a tidy name fails directly at most 6 times in every registry of modest routes, whatever its siblings are called; for a name no sibling is stripped to, failure = recent_failure = direct failures and the window stays within 20 |
| AdaptiveRouting.DeclarativeFailuresBounded | zen_claw/agent/intent_router_declarative.py:398-422 | at most 4 when no crystallized route runs the intent, for every registry, any confidence of its routes and any state to start from |
| RoutingExtremes.BoundsAreReached | zen_claw/agent/loop.py:1823-1856 | both bounds are reached by concrete sessions |
| RoutingExtremes.ModestIsExact | zen_claw/agent/intent_router_crystallized.py:23 | six failures stop a candidate in every history if and only if its raw confidence is at most 80/79 |
| RoutingExtremes.BoundHoldsIffTidy | zen_claw/agent/loop.py:1820-1832 | in all registries of modest routes and all sessions an intent fails directly at most 6 times, if and only if stripping leaves its name alone |
| RoutingExtremes.UntidyNameNeverStops | zen_claw/agent/loop.py:1820-1832 | otherwise any number of direct failures is possible |
| AdaptiveRouting.HandOverIsPermanent | zen_claw/agent/intent_router_declarative.py:398-422 | once the highest raw confidence times the blended one is below 0.8 no later turn runs the intent directly and its history is frozen |
| AdaptiveRouting.RetirementIsFinal | zen_claw/agent/intent_router_crystallized.py:63-88 | for a route alone under its name, failures in a row never pass max(1, limit), and a retired route's state never changes again |
| RoutingExtremes.LimitHoldsIff | zen_claw/agent/intent_router_crystallized.py:80-88 | a route keeps to its limit over all sessions, counting under its stripped name, if and only if the limit is at least 1 and stripping leaves the name alone, or the name is blank and the limit not negative, or the limit is 6 or more |
| RoutingExtremes.UntidyRouteNeverRetires | zen_claw/agent/loop.py:1821-1880 | a route whose name stripping changes to something not blank is never retired, whatever its limit, and reaches six failures in a row in a session from scratch |
| RoutingExtremes.SpacedNameOverrunsItsLimit | zen_claw/agent/intent_router_crystallized.py:75-88 | such an input: one space around the name and a limit of 1 |
| RoutingExtremes.TwinRevives | zen_claw/agent/intent_router_crystallized.py:57-61 | with two routes of one name, limits 1 and 5, a session from scratch retires the stricter one and a success of the other brings it back |
| AdaptiveRouting.UpdateKeepsWindowIff | zen_claw/agent/loop.py:1842-1852 | exactly when one update keeps the window of 20 |
| AdaptiveRouting.UngatedRunOverrunsWindow | zen_claw/agent/loop.py:1842-1852 | 21 failures without the valve overrun the window |
| CoveredRanges.CountCoveredCharacters | zen_claw/agent/intent_router_declarative.py:462-472 | the merge loop returns the number of positions in the union of the spans, whatever their order, overlap or emptiness |
| CoveredRanges.PositionsDependOnMembers | zen_claw/agent/intent_router_declarative.py:462-472 | the count does not depend on order or repetition |
| JsonText.PrintParses | browser/sidecar/canonicalization.js:5-14 | a parser recovers any value from its text, exponent forms included, and stops exactly at its end (sections 4 to 7 of RFC 8259) |
| JsonText.EscapesOnlyRequired | browser/sidecar/canonicalization.js:5-14 | exactly the characters that section 7 of RFC 8259 requires are escaped, in short form where there is one and with lower-case digits elsewhere |
| CanonicalJson.CanonicalTextParses | zen_claw/security_context.py:17-21 | parsing the canonical text of the value a runtime holds gives that value with sorted keys |
| RuntimeAgreement.JsTextParses | browser/sidecar/canonicalization.js:5-14 | what JavaScript printed parses to the value it holds after its own number conversion |
| RuntimeAgreement.EnginesExist | browser/sidecar/canonicalization.js:5-14 | what is asked of a JavaScript engine's number conversion can be met, so the results about engines are not empty |
| CanonicalJson.TextDecidesEquivalence | browser/sidecar/canonicalization.js:5-14 | two values have the same canonical text if and only if they are the same JSON value up to key order |
| RuntimeAgreement.RuntimesAgreeIff | zen_claw/security_context.py:17-21 | Python and JavaScript print a value alike if and only if no object holds two clashing keys and the engine prints every integer exactly |
| RuntimeAgreement.SafeValuesAgreeIff | zen_claw/security_context.py:17-21 | for integers up to 2^53 - 1 in size the keys alone decide |
| RuntimeAgreement.HugeIntegersDisagree | zen_claw/security_context.py:17-21 | a value with an integer of 22 digits or more is never printed alike |
| RuntimeAgreement.RuntimesCanDisagree | zen_claw/security_context.py:17-21 | a concrete value of safe integers on which the key orders differ |
| GatewayEnvelope.SealingKeepsCanonical | zen_claw/security_context.py:144-172 | writing request hash and signature does not change what is hashed and signed |
| GatewayEnvelope.SealedVerifies | zen_claw/security_context.py:93-192 | every sealed envelope verifies |
| GatewayEnvelope.SameSignatureSameContent | zen_claw/security_context.py:175-192 | verified envelopes with one signature are the same value apart from gateway_signature and request_hash |
| GatewayEnvelope.TamperDetected | zen_claw/security_context.py:175-192 | with hash and signature kept, an edited envelope verifies if and only if the rest is the same value |
| GatewayEnvelope.VerifiedIff | zen_claw/security_context.py:175-192 | an envelope verifies if and only if its metadata carries the hash, and it the signature, of its own canonical text |
| GatewayEnvelope.VerdictMeans | zen_claw/security_context.py:183-191 | otherwise the verdict is the first reason that applies |
| GatewayEnvelope.MalformedIff | zen_claw/security_context.py:179-180 | metadata is malformed if and only if it is neither falsy nor an object (a list of pairs is left out) |
| GatewayEnvelope.CanonicalCovers | zen_claw/security_context.py:144-152 | the canonical envelope leaves out the signature, the request hash in the metadata, and nothing else |
| GatewayEnvelope.NoFieldCanChange | zen_claw/security_context.py:175-192 | between verified envelopes with one signature the value under every other key, and under every metadata key but the hash, is the same |
| SecurityEnvelopes.EnsuredVerifies | zen_claw/security_context.py:226-294 | every envelope the normaliser produces verifies |
| SecurityEnvelopes.IdentityOf | zen_claw/security_context.py:237-280 | who acts, field by field for any input: which source wins when several give the field, how it is normalised, and the default when all are blank |
| SecurityEnvelopes.StandingOf | zen_claw/security_context.py:281-291 | subject type and trust tier: explicit argument, top level, inner context, and the defaults |
| SecurityEnvelopes.GrantsOf | zen_claw/security_context.py:246-253 | the grants are those of the explicit argument, else of the top level, else of the inner context, and without any of them exactly ["*"] |
| SecurityEnvelopes.GrantsKept | zen_claw/security_context.py:292-292 | of these the ones that are not blank, in their order, each once, stripped and lower-cased |
| SecurityEnvelopes.PolicyOf | zen_claw/security_context.py:238-245 | the policy snapshot of the top level or else of the inner context, with its hash, added where it is missing |
| SecurityEnvelopes.IssuedBy | zen_claw/security_context.py:254-278 | the gateway instance: the context's own, else the one named in the metadata, else this process |
| EnvelopeReading.EmittedMembers | zen_claw/security_context.py:109-141 | the emitted envelope carries each of these fields under its protocol name |
| EnvelopeReading.EmittedMeta | zen_claw/security_context.py:118-124 | its metadata names instance, policy hash and version 1 |
| EnvelopeReading.GrantsFieldMeans | zen_claw/security_context.py:247-253 | a missing grants member is told from a null or empty one, and a list is read item by item |
| SecurityEnvelopes.SecondPass | zen_claw/security_context.py:226-294 | a second pass can change nothing but the origin surface |
| SecurityEnvelopes.IdempotentIff | zen_claw/security_context.py:226-294 | normalising is idempotent if and only if the origin surface is missing, not blank, or has no channel to fall back to |
| EnvelopeReading.OwnEnvelopeReadsBack | zen_claw/security_context.py:195-294 | the normaliser reads its own sealed envelope back field by field |
| EnvelopeReading.EnvelopeIdempotentIff | zen_claw/security_context.py:226-294 | the emitted envelope, signature and all, is reproduced under exactly that condition |
| SecurityEnvelopes.NotIdempotent | zen_claw/security_context.py:226-294 | inputs on which it is not |
| SecurityEnvelopes.SettlesAfterTwoPasses | zen_claw/security_context.py:226-294 | from the second pass on nothing changes |
| IntentCaches.IntentCache.Lookup | zen_claw/agent/intent_cache.py:102-126 | a hit moves the key to the end, an expired entry is removed, counters follow |
| IntentCaches.IntentCache.Put | zen_claw/agent/intent_cache.py:128-148 | refresh or insert after evicting from the front, with the eviction count |
| IntentCaches.IntentCache.Forget | zen_claw/agent/intent_cache.py:150-156 | removes the key and says whether it was there |
| IntentCaches.IntentCache.Clear | zen_claw/agent/intent_cache.py:158-163 | empties store and counters |
| IntentCaches.AlwaysConsistent | zen_claw/agent/intent_cache.py:102-163 | in every run: size bound, agreement with the last-write map, order of last use, gets = hits + misses, new-key puts = size + evictions + expiries + invalidations |
| IntentCaches.HitIsLatest | zen_claw/agent/intent_cache.py:102-126 | a hit returns the latest put of its key, unexpired |
| IntentCaches.HitIff | zen_claw/agent/intent_cache.py:102-148 | a look-up hits if and only if its intent is cached and an answer to the same question was put, has not expired, and was neither replaced, forgotten, cleared, dropped as expired nor evicted since; that answer is returned |
| IntentCaches.SameKeyIff | zen_claw/agent/intent_cache.py:182-191 | two look-ups ask the same question if and only if their lower-cased intents are equal and their lower-cased queries have the same words in the same order |
| IntentCaches.CountersCount | zen_claw/agent/intent_cache.py:102-163 | hits, misses and evictions count answered look-ups, other look-ups, and entries dropped for another |
| IntentCaches.LastUseIsLastUse | zen_claw/agent/intent_cache.py:102-148 | the recorded last use of a key is an operation that used it, and none has since |
| IntentCaches.EvictionNeedsMaxsizeOthers | zen_claw/agent/intent_cache.py:128-148 | a key is evicted only after maxsize distinct other keys were used since its last use |
| IntentCaches.VictimIsFirst | zen_claw/agent/intent_cache.py:128-148 | eviction happens only at exact capacity and takes the least recently used key |
| ContextCompression.SessionState.BuildHistory | zen_claw/agent/loop.py:2422-2508 | the in-place session update, the question put to the summariser and the history handed to the model, for every plan, trigger and reply |
| ContextCompression.BuildMeans | zen_claw/agent/loop.py:2422-2508 | a summary is asked for when more than trigger messages are there and at least min_new of them are old, or on the token trigger with nothing old; about exactly the messages between the last summary and the recent ones; and only a reply with text moves the summary, to exactly there |
| ContextCompression.SummariesTile | zen_claw/agent/context_compression.py:38-57 | in every conversation summarised ranges are consecutive, cover exactly the first upto messages, spare the last keep_recent, and have a non-empty summary |
| ContextCompression.SeamlessIff | zen_claw/agent/loop.py:2476-2508 | the session's summary, present when anything was summarised, and recent messages join without gap or overlap if and only if the reply for a new segment was not empty |
| ContextCompression.TokenTriggerNeverMoves | zen_claw/agent/loop.py:2425-2475 | the token-budget trigger never moves upto |
| ContextTruncation.EstimateContent | zen_claw/agent/context.py:366-382 | the estimator's loop over blocks equals the block sum, whose meaning `ContextTruncation.TokensMean` gives |
| ContextTruncation.TokensMean | zen_claw/agent/context.py:359-382 | a quarter of the characters and at least 1, 85 for an image, sums over blocks and messages, 4 more per message |
| ContextTruncation.ApplyMaxTokens | zen_claw/agent/context.py:306-357 | the dropping loop and the trimming branches equal the value-level truncation |
| ContextTruncation.TruncateKeepsShape | zen_claw/agent/context.py:306-357 | output starts with the system message (as it was, with the drop notice, or the first 4 * (budget - latest) - 64 characters of either, at least 256, with the mark), ends with the latest, keeps a suffix of history between |
| ContextTruncation.DropCountStops | zen_claw/agent/context.py:325-336 | the loop stops at the first suffix that fits and not earlier |
| ContextTruncation.TruncateFitsIff | zen_claw/agent/context.py:306-357 | exactly when the output fits, for every content and budget: what remains after dropping fits with the drop notice added, or the system text is long enough to be cut and the latest message leaves 77 tokens |
| ContextTruncation.NoticeOverrunIff | zen_claw/agent/context.py:325-357 | with 77 tokens to spare a conversation overruns if and only if its noted system text is too short to be cut and the notice no longer fits |
| ContextTruncation.NoticeCanOverrun | zen_claw/agent/context.py:325-357 | for every latest message and every budget above the threshold such a conversation, whose history was dropped until it fitted |
| ContextTruncation.BelowMinimumFitsIff | zen_claw/agent/context.py:340-357 | with less to spare the output fits if and only if nothing had to be cut |
| ContextTruncation.OtherContentFitsIff | zen_claw/agent/context.py:325-357 | with system content that is not a string the output fits if and only if the system and the latest message alone do |
| ContextTruncation.TruncateBound | zen_claw/agent/context.py:306-357 | above that threshold the budget is passed by at most the drop notice, and only with history cut but not emptied |
| ContextTruncation.BelowMinimumOverruns | zen_claw/agent/context.py:340-357 | below it cutting never helps |
| ContextTruncation.MinimumCanOverrun | zen_claw/agent/context.py:340-357 | for every latest message and every budget below the threshold a conversation overruns |
| MemoryRecall.ClassifiersAgreeIff | zen_claw/agent/memory_ternary.py:91-97 | the two classifiers differ exactly on the reject threshold |
| MemoryRecall.TernaryScore | zen_claw/agent/memory_ternary.py:99-138 | the scoring loop, sort and overflow equal the three-way split |
| MemoryRecall.TiersConserve | zen_claw/agent/memory_ternary.py:99-138 | the tiers are a multiset partition of the scored candidates |
| MemoryRecall.TiersMeanThresholds | zen_claw/agent/memory_ternary.py:91-138 | what membership of each tier says about the score, and that the cap on the uncertain tier is used up before anything above the reject threshold is rejected |
| MemoryRecall.TierMeans | zen_claw/agent/memory_ternary.py:91-128 | each tier, before the cap, lists exactly the candidates whose score belongs to it, in their order |
| MemoryRecall.KeptCount | zen_claw/agent/memory_ternary.py:130-136 | how many uncertain candidates the cap keeps, a negative cap included |
| MemoryRecall.RejectedInOrder | zen_claw/agent/memory_ternary.py:130-138 | the rejected tier lists what fell below the reject threshold first and what the cap cut off after it, best first |
| MemoryRecall.CapKeepsBest | zen_claw/agent/memory_ternary.py:130-136 | every uncertain candidate kept scores at least as high as every one cut off |
| MemoryRecall.ResolveUncertain | zen_claw/agent/memory_ternary.py:140-171 | the re-scoring loop equals the promoted and demoted lists |
| MemoryRecall.ResolutionConserves | zen_claw/agent/memory_ternary.py:140-171 | every uncertain text is promoted or demoted, once |
| MemoryRecall.PromotedMeaning | zen_claw/agent/memory_ternary.py:155-171 | the second scorer alone decides, and a promoted text keeps the better score |
| MemoryRecall.PromotedMeans | zen_claw/agent/memory_ternary.py:155-171 | the promoted list, in order: exactly the candidates whose second score reaches the second threshold, or the first where that is absent or zero, each with the better of its scores |
| MemoryRecall.RecallIsExact | zen_claw/agent/memory_ternary.py:173-184 | recall is sorted and is exactly accepted plus promoted |
| MemoryRecall.SelectFromScored | zen_claw/agent/memory.py:186-207 | the selection loop is the greedy choice in rank order |
| MemoryRecall.GreedyWithinBudgets | zen_claw/agent/memory.py:186-207 | the selection respects both budgets and repeats nothing after normalising |
| MemoryRecall.GreedyIsMaximal | zen_claw/agent/memory.py:186-207 | no text that was left out could still be added |
| MemoryRecall.GreedyExtends | zen_claw/agent/memory.py:186-207 | the choice made for any prefix of the ranking is kept |
| MemoryRecall.TakesMeans | zen_claw/agent/memory.py:191-205 | a text is taken if and only if both budgets allow it and it has words, other than those of every selected text up to case |
| MemoryRecall.GreedyNext | zen_claw/agent/memory.py:191-205 | the ranking is gone through in order and each text is added exactly when it can be |
| MemoryRecall.ContextRanking | zen_claw/agent/memory.py:239-288 | the ranking is by score with 0.05 added to recent texts, and equal scores keep the order of recall |
| MemoryRecall.ContextHoldsOnlyAccepted | zen_claw/agent/memory.py:239-288 | every remembered text in the prompt was accepted by the first scorer, or not rejected by it and accepted by the second; the recency boost never admits |
| SkillStores.SkillStore.Recover | zen_claw/agent/skills.py:1860-1872 | start-up recovery removes exactly the journaled directories and empties the journal, and is a run of the crash machine |
| SkillStores.SkillStore.InstallSkillTree | zen_claw/agent/skills.py:1213-1254 | refused and dry-run installs change nothing; success leaves old files overlaid by new and the journal without the name; failure leaves the journal entry and what was written, half-written files included; other skills untouched |
| SkillStores.SkillStore.CopyTree | zen_claw/agent/skills.py:1243-1245 | the copy tries every file, succeeds if and only if none fails, and leaves exactly the files and partial files attempted |
| SkillInstalls.InvAlways | zen_claw/agent/skills.py:1241-1254 | over every run with crashes: an unfinished directory is named in the journal, and a finished one holds exactly the files of completed installs iff its last install covered the damage it found |
| SkillInstalls.InstallIsWholeIff | zen_claw/agent/skills.py:1241-1254 | however the copying goes, a completed install leaves its directory whole if and only if it brings every damaged file anew |
| SkillInstalls.RecoveryIsExact | zen_claw/agent/skills.py:1860-1872 | recovery, however often interrupted and restarted, removes exactly the journaled directories and nothing else |
| SkillInstalls.RecoveryCleansIff | zen_claw/agent/skills.py:1860-1872 | from any disk, no partial copy remains if and only if the journal named every unfinished directory |
| SkillInstalls.RecoveryCompletes | zen_claw/agent/skills.py:1860-1872 | recovery gets through when left alone |
| SkillInstalls.CrashSafe | zen_claw/agent/skills.py:1821-1872 | after any run, a crash at any point and recovery with further crashes: no directory is left mid-copy, and an installed one is whole iff its last install covered the damage |
| SkillInstalls.GuardedCrashSafe | zen_claw/agent/skills.py:1821-1872 | if no overwrite goes into a journaled name or an uninstall residue, every remaining installed directory holds exactly the files of completed installs |
| SkillInstalls.HalfFileSurvives | zen_claw/agent/skills.py:1241-1254 | without the guard a half-written file of a failed install survives in an installed directory |
| SkillInstalls.OverwriteIsNotRolledBack | zen_claw/agent/skills.py:1241-1254 | an interrupted overwrite removes the old version |
| SkillInstalls.UninstallOutcome | zen_claw/agent/skills.py:1533-1544 | an uninstall ends without the directory and with every other as it was, or, when it fails, with exactly the files not yet removed; the journal takes no part |
| SkillInstalls.TornJournalKeepsPartialCopy | zen_claw/agent/skills.py:1839-1858 | crash safety fails when a journal write is cut short |
| ZipExtract.ClimbIffSubstring | zen_claw/agent/skills.py:1397-1398 | the two substring tests find exactly the parent-directory pieces that are not last |
| ZipExtract.PiecesMean | zen_claw/agent/skills.py:1388-1398 | a name is its pieces with slashes between them, and no piece holds a slash |
| ZipExtract.PartsMean | zen_claw/agent/skills.py:1399-1402 | its parts are the pieces without the empty ones and the dots, in order |
| ZipExtract.ValidateMeaning | zen_claw/agent/skills.py:1388-1405 | when an entry name is accepted, in terms of its pieces alone, and where the entry then lands, for every base |
| ZipExtract.Contained | zen_claw/agent/skills.py:1402-1405 | an accepted entry extends the base by at most ten components, none of them a parent reference |
| ZipExtract.SafeExtract | zen_claw/agent/skills.py:1350-1386 | extraction succeeds if and only if every check passes for every entry, and otherwise writes nothing |
| ZipExtract.EntryCounts | zen_claw/agent/skills.py:1361-1376 | what one more entry adds to the file count and the total: nothing for a name that ends in a slash, and no negative size |
| ZipExtract.ExtractionIsContained | zen_claw/agent/skills.py:1350-1386 | a successful extraction stays inside the target and within the file-count and size limits |
| Calendar.NthWeekdayUtc | zen_claw/agent/intent_router_parsers.py:327-346 | the scanning loop equals its closed form, or raises past the end of the month, never for the first four occurrences |
| Calendar.LastWeekdayUtc | zen_claw/agent/intent_router_parsers.py:348-355 | the backward scan equals its closed form and always finds a day |
| Calendar.FallbackOffset | zen_claw/agent/intent_router_parsers.py:269-321 | the offset of each of the seven zones by name, summer time exactly between the switches of the year, and nothing for other names |
| Calendar.SwitchDays | zen_claw/agent/intent_router_parsers.py:274-320 | the switches by day and hour: second Sunday of March and first of November, last Sundays of March and October, first Sundays of October and April |
| Calendar.ClockOrigin | zen_claw/agent/intent_router_parsers.py:327-355 | day numbers and weekdays are those of the calendar in use: the clock's origin was day 719163, a Thursday |
| Calendar.AmericanWindow | zen_claw/agent/intent_router_parsers.py:274-294 | the American window is exactly 34 weeks less one hour every year (15 U.S.C. section 260a(a)) |
| Calendar.EuropeanWindow | zen_claw/agent/intent_router_parsers.py:295-315 | the European window is 31 weeks if the last Sunday of March is the 28th or earlier, else 30 (Articles 2 and 3 of Directive 2000/84/EC) |
| Calendar.SydneyWindow | zen_claw/agent/intent_router_parsers.py:316-320 | Sydney's standard time is 27 weeks if April starts on a Sunday, else 26 |
| Calendar.AmericanSwitch | zen_claw/agent/intent_router_parsers.py:274-294 | American switches fall on a Sunday at 02:00 by the clock being changed |
| Calendar.EuropeanSwitch | zen_claw/agent/intent_router_parsers.py:295-315 | European switches fall on a Sunday at 01:00 UTC, everywhere at once |
| Calendar.SydneySwitch | zen_claw/agent/intent_router_parsers.py:316-320 | Sydney's switches fall on a Sunday at 02:00 standard time |
| Calendar.NewYearIsSeamless | zen_claw/agent/intent_router_parsers.py:269-325 | around New Year the answer does not depend on which year the clock reads |

## Left out

Assumptions:

- Scores, confidences and thresholds are real numbers; floating-point rounding and NaN are not modelled.
- SHA-256 and HMAC are injective functions with non-empty, stripped results; the cache digest and the approval ids are collision free. `sign_data` and `verify_signature` are not part of this model.
- Numbers in JSON values are integers. How a JavaScript engine rounds integers between 2^53 and 10^21 is a parameter bound by what ECMA-262 promises; Python's limit on printing integers of more than 4300 digits is ignored. Strings have no lone surrogates. `str()` of a list or dictionary inside envelope metadata stands for its Python form.
- Case mapping is modelled on ASCII, whitespace as the set both languages share; zip names are taken as already in Unicode normal form C.
- Routes and intents registered under one name match the same texts; which names a text matches is an input of the turn.
- One gate per store file, one installer at a time, the default skill directory layout; approval ids are fresh; the session counter does not wrap.
- In recovery, deleting a directory succeeds: `ignore_errors=True` would hide a failure and then empty the journal.
- Sizes of zip entries are the declared ones; I/O errors while writing entries raise and are not modelled.

Deliberately weaker contracts:

- ExecuteLoop.RunLoop: crashes of the process during a run are left to the gate's own machine, `ApprovalGates.OneApprovalOneExecution`.
- ExecuteLoop.HandleCall: learning from parameter failures and message texts are not modelled.
- GatewayEnvelope.MalformedIff: metadata given as a list of pairs, which `dict(...)` accepts, counts as malformed.
- SkillInstalls.CrashSafe: an interrupted uninstall leaves its residue; journal writes are taken as atomic, and `SkillInstalls.TornJournalKeepsPartialCopy` shows what happens otherwise.
- SkillStores.SkillStore.InstallSkillTree: the manifest checks and sanitising before the copy, and the skill mapping refreshed after it, are not modelled.
- SessionManagers.SessionManager.WriteForOwner: how many bytes the pipe takes and whether it breaks are inputs.
- ContextTruncation.TruncateBound: it is stated for string system content, the only kind the code trims; `ContextTruncation.TruncateFitsIff` covers every kind.
- EnvelopeReading.EnvelopeIdempotentIff: input fields are texts and flags; other JSON types in those places are not modelled.
- ApprovalGates.ApprovalGate.Decide: it does not expire first, as the code does not, so a pending approval past its age can still be approved until something expires it.
- Calendar.FallbackOffset: the seven zones with a computed window; fixed-offset zones and aliases are table look-ups.

Not modelled, because no state of the components above depends on how they work, only on what they answer:

- HTTP handlers, audit logging, the message bus, provider and network calls, subprocess and pipe mechanics: they are nondeterministic inputs or steps.
- The Go canonical encoder, whose escaping differs from Python and JavaScript, and the re-encoding of output chunks that split a character.
- Several gate instances on one file, concurrent installers, versioned skill directories and snapshot tokens.
- Regular-expression matching of intents and embedding or SQLite scoring, which enter as the set of matches and the scores; unit and currency tables, dashboards, browser automation, configuration, migration and evaluation scripts.
- `session.get_history()` and `session.clear()`, whose class is not part of this model; a clear is the start of a new run.
