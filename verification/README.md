# mcp-visor: verified models of its stateful and algorithmic core

mcp-visor sits between an AI agent and its MCP tool servers. It decides which tool calls go through,
stops a child process when told to, keeps a hash-chained audit log, waits for signed approvals, and
carries provenance evidence alongside. This project models the parts of it whose correctness is not
visible from one function body, and proves what those parts promise: over every input, every run of a
protocol, and every failure the code has a branch for.

`dafny verify dfyconfig.toml` checks everything.

## What is modelled

| files | component |
|---|---|
| `Framing.dfy` | the length-prefixed and separator-joined encodings four packages hash or key by |
| `InstructionModel.dfy`, `InstructionAuthority.dfy`, `InstructionTheorems.dfy`, `InstructionVerified.dfy` | hop logs, their fold, verification and authorization; what verification accepts and records, spelled out |
| `PolicyReload.dfy`, `PolicyPublish.dfy` | reloads, committer registration, tool calls and readers as interleaved lock-level steps; that a reload takes effect |
| `KineticStop.dfy`, `KineticExact.dfy`, `KineticOutcomes.dfy`, `KineticProgress.dfy` | launch, encode, stop and join as interleaved steps; what a latched stop, a join and each thread's answer exactly guarantee; the stop gets through |
| `ControlChannel.dfy`, `ControlExact.dfy` | the signed control directory; exactly which sessions start |
| `AuditTail.dfy`, `AuditLedger.dfy`, `AuditTheorems.dfy`, `AuditOutcomes.dfy` | the backward tail reader, the logger with its latch, every run with failures and crashes, and what each operation reports |
| `DurableApproval.dfy`, `DurableEngine.dfy`, `DurableTheorems.dfy` | approval maps and state files, and every run with crashes |
| `DurableAnswers.dfy`, `DurableExact.dfy` | what the engine answers in every run; exactly which directories load |
| `DurableReload.dfy`, `DurableSimulation.dfy` | what a reload answers when receipts compete; engine calls as runs |
| `ContextGraph.dfy`, `ContextProvenance.dfy`, `ContextExact.dfy` | fragment graphs: cycle search, memoised ceilings, ancestry, breach, decision; who may instruct, spelled out |
| `DuplicateMembers.dfy` | the two scans for repeated JSON member names |
| `Episode.dfy`, `IncidentBundle.dfy`, `IncidentExact.dfy` | the episode state machine; appending, sealing and verifying bundles |
| `IncidentBench.dfy`, `BenchRecorder.dfy`, `BenchReport.dfy`, `BenchCorpus.dfy` | the idempotent boundary, the recorder, the corpus loop that composes them, and the generated corpus |
| `CapabilityChain.dfy`, `CapabilityTheorems.dfy`, `CapabilityExact.dfy` | the capability receipt chain and its proxy adapter; deltas and judgements signal by signal |
| `Lineage.dfy`, `LineageValidate.dfy`, `LineageTheorems.dfy`, `LineageExact.dfy` | the agent and grant registry, what an allowed call proves, and exactly what is allowed and accepted |
| `AuthState.dfy` | grant and revoke log replay |
| `Hex.dfy`, `Spaces.dfy`, `Wrappers.dfy` | hexadecimal text; ASCII spaces; Option and Result |

Where the Go code updates state in place, the model has a class or an imperative method with the same
branches, and its `ensures` ties the result to a specification; the laws are lemmas about that
specification or about every run. Where Go runs concurrently, the model is a step system: one step is
one lock operation or one store.

Conventions: a Go string is a `string` whose characters stand for bytes. SHA-256, JSON encoding, HMAC
and Ed25519 are function parameters. A hash is never assumed injective: a commitment theorem says that
two texts are equal or that the named pair collides; where its shape matters it is a digest in hex. An Ed25519 or HMAC check is an arbitrary predicate.

## Where the code and its documentation differ

- `docs/architecture.md:260` and `docs/threat-model.md:376` say a latched stop cannot be followed by a
  successful encode or Start. The flag is raised outside the I/O mutex (`internal/proxy/kinetic_stop.go:108-168`),
  so one launch or encode already past its check still completes: `KineticStop.LatchedStopCanBeFollowedByAnEncode`
  gives a run. `KineticExact.NothingActsAfterLatchExactlyWhen`: the promise holds if and only if, when the flag
  goes up, nobody holds kineticIOMu past its check.
- `docs/architecture.md:260` says the `kineticOr` join ends after state is persisted. A join that found no error
  at its first look does not wait, and may return the provisional error while the outcome is being persisted
  (`internal/proxy/kinetic_stop.go:280-288`; a run is `KineticStop.UnwaitedJoinCanReturnProvisional`). The provisional
  and the final error have the same text when persisting succeeds (lines 121 and 164), so what such a caller misses
  is a failed commit or state write.
  `KineticExact.JoinIsSafeExactlyWhen`: a join is safe from that if and only if its first look finds an error or
  the proxy is not enabled for stops; `KineticExact.SecondLookMayFindProvisional` says the same of the second look.
- The comment on `validDigest` (`internal/incidentbundle/bundle.go:720`) says lowercase; `hex.DecodeString`
  takes either case: `Hex.UppercaseDigestIsTaken`. `Hex.DigestUpToCase` says exactly what is taken.
- The comment in `loadState` (`internal/approval/durable.go:355-357`) promises independence of directory order for
  a completed approval against its leftover request, and that holds (`DurableTheorems.ReloadPutsEveryIdInOnePlace`).
  Two unexpired receipts of one server, tool, session and agent are another matter: the receipt loop keeps the last,
  and `os.ReadDir` lists by name, so after a reload the greatest file name answers, whichever receipt was submitted
  last. `DurableReload.ReloadCanReverseTheAnswer` gives runs in which a crash and reload turn a denial into a grant;
  `DurableReload.ReloadKeepsTheDecisionExactlyWhen`, `DurableReload.ReloadKeepsTheAnswerExactlyWhen` and
  `DurableReload.ReloadDecisionIsOrderFree` are exact.
- A state file cut short by a failed write blocks every later reload until someone removes it:
  `DurableTheorems.LoadsUnlessTorn` gives the exact condition, `DurableReload.TornDirectoryIsReachable` a run.
- `Verify` is documented to detect mutated bytes (`internal/incidentbundle/bundle.go:220-223`). `omitempty` encodes an
  empty payload map like an absent one (`internal/incidentbundle/bundle.go:66`), so the signed head does not tell the
  two apart. `IncidentBundle.EventsArePinnedExactlyWhen`: a verified bundle's events can be exchanged for others like
  them under the same manifest if and only if one of them carries the empty payload, or no payload and the empty
  payload's hash; `IncidentBundle.ManifestPinsEvents` says nothing else can be exchanged without a collision.
  Parsing refuses an empty payload (`internal/incidentbundle/bundle.go:479-510`), which closes this for bundles that
  arrive as JSON. The principal, delegation, authority, redaction and evidence fields are one `content` in the model,
  standing for how they are encoded: there a nil and an empty delegation (`internal/incidentbundle/bundle.go:64`), and
  texts that differ in invalid UTF-8 bytes, are encoded alike and so are not told apart either.

## Model

| member | source | states |
|---|---|---|
| Framing.FrameAllInjective | internal/instructionauthority/model.go:227-264 | concatenated length-prefixed fields determine the number of fields and every field, for any prefix that reads back |
| Framing.UvarintPrefixFree | internal/instructionauthority/model.go:227-264 | a base-128 uvarint reads back off the front of any text |
| Framing.BigEndianPrefixFree | internal/killswitch/control.go:313-322 | eight big-endian length bytes read back off the front of any text |
| Framing.DecimalFieldReadBack | internal/approval/durable.go:509-511 | a `<length>:<field>` pair reads back off the front of any text, colons and digits included |
| Framing.JoinInjective | internal/incidentbench/boundary.go:110-124 | parts free of the separator are determined by their join |
| InstructionModel.EncodeHopInjective | internal/instructionauthority/model.go:227-264 | the bytes hashed for a hop determine every hashed field, endorsement presence included |
| InstructionModel.EncodeHopLongerThanContent | internal/instructionauthority/model.go:227-264 | the encoding is strictly longer than the content inside it, so no hop's content is its own encoding |
| InstructionAuthority.FoldTrace | internal/instructionauthority/evaluator.go:99-156 | the loop computes the fold of the hop log and the authority in force before every hop |
| InstructionAuthority.VerifyProvenance | internal/instructionauthority/evaluator.go:263-339 | succeeds exactly when the object is acceptable: ends match, every hop self-consistent, no digest failure, folded provenance equal, every recorded verdict equal to its recheck |
| InstructionAuthority.DigestFailureMeansUnlinked | internal/instructionauthority/evaluator.go:120-144 | the fold flags a digest failure if and only if some hop does not link to its predecessor |
| InstructionAuthority.PrefixFoldsAlike | internal/instructionauthority/evaluator.go:34-97 | folding a longer log extends the fold of its prefix |
| InstructionAuthority.StartingReprIrrelevant | internal/instructionauthority/evaluator.go:94-156 | once there is a hop, the fold does not depend on the starting representation label |
| InstructionTheorems.RoundTrip | internal/instructionauthority/evaluator.go:34-156 | an origin object transformed any number of times under one registry verifies if and only if there are at most MaxHistoryHops transforms |
| InstructionTheorems.AuthorityIsCeilingOrGrant | internal/instructionauthority/evaluator.go:99-207 | over all logs, honest or not, effective authority is the origin's trust ceiling or the grant of a recorded valid endorsement within its observed ceiling |
| InstructionTheorems.VerifiedAuthorityRisesOnlyByPromotion | internal/instructionauthority/evaluator.go:211-324 | in a verified object a hop changes the level exactly if nothing was refused before and it carries a named endorsement of that very promotion: of the digest of the content it was given and of the content it gave, its transformer and target, the level asked for, by a registry principal at or above that level, itself above the one before |
| InstructionTheorems.VerifiedRefusesExactlyWhen | internal/instructionauthority/evaluator.go:158-207 | and continuity fails for good exactly at a hop that asks without such an endorsement |
| InstructionTheorems.ValidExactlyIfItEndorses | internal/instructionauthority/evaluator.go:213-257 | an endorsement is valid exactly if it binds both contents, transformer, target and level, and its promoter stands where the lattice asks |
| InstructionTheorems.FailureIsSticky | internal/instructionauthority/evaluator.go:399-461 | once continuity has failed, no sequence of further transforms under any registries makes Authorize say execute |
| InstructionTheorems.AuthorizeExactly | internal/instructionauthority/evaluator.go:430-461 | on a built object Authorize agrees with a two-variable account of the steps that spells out trust classes, lattice and endorsement: it executes exactly when bearing, within bound, nothing refused and level at least USER |
| InstructionTheorems.LastDigestCommitsToHistory | internal/instructionauthority/evaluator.go:120-144 | two logs that fold without digest failure and share the last hop digest are equal hop for hop, whatever their lengths, or two strings hashed for them collide |
| InstructionVerified.VerifiesExactlyWhenGenuine | internal/instructionauthority/evaluator.go:263-339 | VerifyProvenance accepts exactly the objects within the bound whose hops link from the root's content to their own, hash right, carry the verdict their endorsement deserves, and whose provenance is the fold, or an untouched origin |
| InstructionVerified.VerifiedHopRecords | internal/instructionauthority/evaluator.go:99-207 | what each hop of an accepted object adds to derivation, lineage, representation, role, digests and promotion record |
| InstructionVerified.EveryHopIsRecorded | internal/instructionauthority/evaluator.go:99-156 | over every log, honest or not, the fold lists each hop's derivation and the level it left |
| InstructionVerified.AcceptedProvenanceIsTheRecord | internal/instructionauthority/evaluator.go:99-156 | accepted provenance is the record of every hop and stands at the last level |
| InstructionVerified.AcceptedProvenanceEndsOnLastHop | internal/instructionauthority/evaluator.go:99-156 | accepted provenance carries the object's content digest and its last hop's parent, representation and role |
| InstructionVerified.EditedProvenanceIsRefused | internal/instructionauthority/evaluator.go:259-310 | no other provenance is accepted on the same object |
| InstructionVerified.ContentIsPinned | internal/instructionauthority/evaluator.go:263-339 | two contents accepted with one history have one SHA-256 |
| InstructionVerified.TransformLeaves | internal/instructionauthority/evaluator.go:34-83 | a transform up to the bound appends exactly the hop that records it, takes over the content, refolds and leaves the rest; beyond the bound it changes nothing |
| PolicyReload.EveryStateIsCoherent | internal/policy/watcher.go:129-195 | in every state of every interleaving, after registration and with the runtime lock not write-held, published policy and all surfaces are of one generation; registry matches policy when the watcher lock is not write-held |
| PolicyReload.NoReaderMixesGenerations | internal/proxy/proxy.go:641-652 | no finished tools/call snapshot (policy, redactor, instruction gate and keys) and no finished reader of Current holds values of two generations |
| PolicyReload.NoDeadlock | internal/proxy/proxy.go:537-610 | no reachable state is stuck, although registration and commit take the two locks in opposite orders |
| PolicyReload.RunsAreFinite | internal/policy/watcher.go:216-228 | a run is no longer than its threads' statements, so every maximal run finishes every thread |
| PolicyReload.StepKeeps | internal/proxy/proxy.go:581-610 | every statement of every thread keeps the lock, data and generation invariant |
| PolicyPublish.FinishedReloadHasPublished | internal/policy/watcher.go:129-195 | over every run, a reload that loads a policy and finishes has published it as policy and registry in some state in between, and has had every surface in force under the runtime lock unless it decided, with no committer there, to publish alone |
| PolicyPublish.LoadedPolicyTakesEffect | internal/proxy/proxy.go:581-610 | in a run in which one policy is loaded, once every thread has finished policy, registry and every surface are that policy's, whichever came first, the reload or the registration |
| PolicyPublish.SnapshotIsOneMoment | internal/proxy/proxy.go:630-652 | every tools/call that starts and finishes holds the policy, redactor, gate and keys that were together in force in one state of the run |
| PolicyPublish.ReadIsOneMoment | internal/policy/watcher.go:253-257 | every reader of Current that starts and finishes holds the policy and registry of one state of the run |
| KineticStop.ContainmentHolds | internal/proxy/kinetic_stop.go:209-253 | from containment on, in every state of every run, no child runs, none is about to start, nothing is about to be encoded, pipes are closed |
| KineticStop.NothingActsAfterContainment | internal/proxy/kinetic_stop.go:209-253 | no run launches or encodes after containment |
| KineticStop.StateFollowsRecordFollowsContainment | internal/proxy/kinetic_stop.go:108-168 | a revoked_contained state is written only after a durable stop record, itself only after containment |
| KineticOutcomes.StateIsWrittenExactlyWhen | internal/proxy/kinetic_stop.go:108-168 | over every run, a state is only written for revoked_contained; an ended stop went to write it exactly if its resulting state was revoked_contained and its record committed; and it is written exactly if that write landed |
| KineticOutcomes.LaunchOutcome | internal/proxy/kinetic_stop.go:225-253 | a finished launch answers ok only for a started child and a second look that found the flag down, and otherwise leaves no running child, and starting failed or the flag is up |
| KineticOutcomes.EncodeOutcome | internal/proxy/kinetic_stop.go:216-223 | a finished encode answers sent only for a message its child drained through pipes not closed, and otherwise was refused under the flag or failed to write |
| KineticOutcomes.EncodesAreCounted | internal/proxy/kinetic_stop.go:216-223 | in every state as many encodes are recorded as threads have sent |
| KineticExact.NothingActsAfterLatchExactlyWhen | internal/proxy/kinetic_stop.go:108-253 | a stop about to raise its flag is followed by no launch and no encode, in whatever continuation, if and only if nobody is past its check under kineticIOMu |
| KineticExact.OnlyTheHolderActsAfterLatch | internal/proxy/kinetic_stop.go:209-253 | in every run, at most the one act of the holder at the latch completes after it, and nothing does if that holder was not past its check |
| KineticExact.JoinIsSafeExactlyWhen | internal/proxy/kinetic_stop.go:274-288 | a join about to take its first look never returns the provisional error while persisting, in whatever continuation, if and only if that look finds an error or no stop can come |
| KineticExact.FirstLookAtAnErrorEndsFinal | internal/proxy/kinetic_stop.go:280-288 | a join whose first look finds an error returns the persisted outcome, after the stop has ended, in every continuation |
| KineticExact.SecondLookMayFindProvisional | internal/proxy/kinetic_stop.go:280-288 | a join that did not wait can still return the provisional error while persisting if and only if a stop can come and its final error is not in force |
| KineticExact.JoinReturnsItsSecondLook | internal/proxy/kinetic_stop.go:280-288 | over every run, a finished join returned the run error in force at its second look, which where the stop then stood decides |
| KineticStop.LatchedStopCanBeFollowedByAnEncode | internal/proxy/kinetic_stop.go:108-168 | a concrete run in which an encode completes after the latch |
| KineticStop.UnwaitedJoinCanReturnProvisional | internal/proxy/kinetic_stop.go:280-288 | a concrete run in which a join returns the provisional error while persisting |
| KineticStop.StepKeeps | internal/proxy/kinetic_stop.go:108-253 | every step of launch, stop, encoders and joiners keeps the containment invariant |
| KineticProgress.NothingIsStuck | internal/proxy/kinetic_stop.go:170-253 | in every reachable state of an enabled proxy some thread can move unless all have finished, even with an encoder stuck, under the lock the stop needs, on a child that drains nothing |
| KineticProgress.RunsAreFinite | internal/proxy/kinetic_stop.go:108-288 | a run takes no more steps than its threads have statements, the exit of the child and one drain per write included |
| KineticProgress.MaximalRunsAreContained | internal/proxy/kinetic_stop.go:108-253 | a run in which no thread can move has ended the stop, contained the child and finished every thread |
| ControlChannel.MacFieldsInjective | internal/killswitch/control.go:313-322 | the MAC input determines its context and every field |
| ControlChannel.BuildMac | internal/killswitch/control.go:313-322 | the loop over context and fields builds exactly their framing |
| ControlChannel.ControlFiles.PublishCommand | internal/killswitch/control.go:170-192 | a weaker command never replaces a stronger one; otherwise the file is the command when the rename lands, and success is reported when the directory sync after it holds too |
| ControlChannel.ControlFiles.PersistState | internal/killswitch/control.go:263-288 | the state written never lowers the revoked epoch; an unreadable state blocks writing; a failed directory sync is reported though the file is there |
| ControlChannel.CommandPayloadBindsFields | internal/killswitch/control.go:142-147 | the signed bytes of a command determine every field but the signature |
| ControlChannel.StatePayloadBindsFields | internal/killswitch/control.go:156-161 | the signed bytes of a state determine every field but the signature |
| ControlChannel.CommandAndStatePayloadsDiffer | internal/killswitch/control.go:142-168 | no command is signed over the bytes of any state |
| ControlChannel.RevocationIsPermanent | internal/killswitch/control.go:209-290 | once a revocation through an epoch is on disk, no later commands, states or damage to the command file let that epoch or a lower one start |
| ControlChannel.CommandsNeverWeaken | internal/killswitch/control.go:170-192 | published commands never lower their epoch while the file is undamaged |
| ControlChannel.StartsExactlyAboveRevocation | internal/killswitch/control.go:240-311 | after a state is written a session starts if and only if its epoch is above the higher revocation and above any command |
| ControlExact.StartsExactlyWhen | internal/killswitch/control.go:209-247 | for every directory, exactly when a session starts, and the condition of each refusal |
| ControlExact.PublishLeaves | internal/killswitch/control.go:170-192 | the command on file afterwards is the new one exactly if it landed and nothing there outdoes it |
| ControlExact.PersistLeaves | internal/killswitch/control.go:263-288 | the state left is the stop's own through the higher of the two epochs |
| ControlExact.PersistRefuses | internal/killswitch/control.go:263-288 | nothing is written over an unreadable state or by a failed rename |
| ControlExact.PublishedCommandStopsExactly | internal/killswitch/control.go:170-247 | a published genuine command stops exactly the epochs up to its own |
| AuditTail.ReadLastCompleteLine | internal/audit/logger.go:275-320 | for every file and every chunk size the backward reader returns what a forward scan of the whole file calls its last non-blank line |
| AuditTail.TailSuffices | internal/audit/logger.go:275-320 | a suffix holding a newline before non-blank text has the same last line as the whole file |
| AuditLedger.Logger.LogEvent | internal/audit/logger.go:335-357 | Log with every failure: the file, the logger and the error are those of the specification |
| AuditLedger.Logger.CommitAuthorization | internal/audit/logger.go:363-396 | the same for an authorization commit, with durability, event shape and sync |
| AuditLedger.Logger.CommitKineticStop | internal/audit/logger.go:404-437 | the same for a stop commit |
| AuditLedger.Logger.AppendFull | internal/audit/logger.go:483-492 | one write that lands whole or reports an error, with exactly what reached the file |
| AuditLedger.RecoverChainState | internal/audit/logger.go:228-271 | recovery over the chunked reader is recovery from the last line of the file |
| AuditLedger.NewLogger | internal/audit/logger.go:165-204 | a logger is opened exactly when recovery and the directory sync succeed, and resumes the recovered tip |
| AuditTheorems.EveryRunHoldsAChain | internal/audit/logger.go:165-492 | from an empty file, every run with write errors, short writes, sync failures, crashes and reopenings leaves complete records in one chain with consecutive indexes and matching previous hashes, and at most one torn line |
| AuditTheorems.ReopenResumesOrRefuses | internal/audit/logger.go:228-271 | after any run, opening resumes exactly the chain on disk, or is refused exactly because the tail is torn |
| AuditTheorems.NothingIsWrittenAfterAFailure | internal/audit/logger.go:335-437 | in every run, after a failed write no sequence of writes, closes and crashes adds to the file until the log is opened again; only what was never synced can be lost, and each write reports the sink unhealthy |
| AuditTheorems.LatchedExactlyAfterAFailure | internal/audit/logger.go:335-437 | over any sequence of writes a logger ends latched if and only if one of them failed, refusing an unacceptable event not counted |
| AuditTheorems.CommittedRecordIsSyncedTip | internal/audit/logger.go:363-437 | a successful commit's event is the last record, linked to the tip, in a fully synced file, and its chain survives every later run, crashes included |
| AuditTheorems.SyncedRecordsSurvive | internal/audit/logger.go:363-437 | synced records stay unchanged and in place through every later run |
| AuditTheorems.CutFlatten | internal/audit/logger.go:275-320 | cutting a chain's text anywhere leaves a shorter chain and a torn line |
| AuditOutcomes.LogOutcome | internal/audit/logger.go:335-357 | over every run Log errs exactly if latched, or the event does not encode, the write errs or falls short, with which error; on a durable logger success leaves the earlier chain and the event's own record linked to its tip |
| AuditOutcomes.CommitOutcome | internal/audit/logger.go:363-437 | the same for both commits, which also need a durable logger, an event of their kind and a sync, and leave the file synced |
| AuditOutcomes.RecoversExactly | internal/audit/logger.go:228-271 | for every file, honest or not, recovery succeeds exactly on a complete tail whose last line is absent, a record under its own hash, or an unchained one, and gives that record's tip |
| AuditOutcomes.LastLineIs | internal/audit/logger.go:275-320 | the last line is the text between the white space on the last line that is not padding |
| AuditOutcomes.PaddingHasNoLine | internal/audit/logger.go:275-320 | a file of blanks and line ends has no last line |
| AuditOutcomes.TipCommitsToChain | internal/audit/logger.go:335-357 | two chains with one tip hash are equal record for record, or a colliding pair is exhibited |
| DurableApproval.KeyInjective | internal/approval/durable.go:509-511 | equal request keys mean the same server, tool, session and agent |
| DurableEngine.Engine.RequestApproval | internal/approval/durable.go:76-174 | the durable branch: the answer, the maps and the files it leaves, with failed and partial writes |
| DurableEngine.Engine.SubmitReceipt | internal/approval/durable.go:176-242 | every branch, the unknown-ID branch included, with failed writes and removals |
| DurableEngine.Engine.GetPendingRequest | internal/approval/durable.go:244-262 | returns an unexpired request, drops an expired one |
| DurableEngine.Engine.Cleanup | internal/approval/durable.go:428-453 | exactly the expired entries leave the maps, and their files go where removal works |
| DurableEngine.LoadReceipts | internal/approval/durable.go:354-391 | the receipt loop accepts exactly loadable receipts and keeps, per key, what reading the files in the given order leaves |
| DurableApproval.LastLiveWins | internal/approval/durable.go:358-391 | the receipt kept for a key is that of the last unexpired file of that key in reading order, and there is one exactly if there is such a file |
| DurableEngine.LoadPending | internal/approval/durable.go:393-426 | the pending loop keeps exactly the unexpired requests without an unexpired receipt and removes leftovers |
| DurableEngine.NewDurableEngine | internal/approval/durable.go:47-74 | the engine is built exactly when the state is loadable and leftovers can be removed, and then holds the maps that reading the files in that order gives |
| DurableTheorems.IssuedRequestsAreNeverLost | internal/approval/durable.go:143-242 | through every interleaving, failed write, crash and reload, an issued request keeps its file, or a verified matching receipt file, or one of them has expired |
| DurableTheorems.ReloadPutsEveryIdInOnePlace | internal/approval/durable.go:354-426 | after a reload an execution ID with unexpired files is either pending or has its receipt file, never both and never neither |
| DurableTheorems.LoadsUnlessTorn | internal/approval/durable.go:325-426 | what these runs leave loads if and only if no file was cut short |
| DurableAnswers.RequestAnswersExactly | internal/approval/durable.go:76-174 | over every run and outcome of the write: a malformed request is refused; a call is approved exactly on a held, settled, lasting approve receipt of that very subject, which it returns; a held deny answers neither approved nor pending; with none held a request waits once its file is whole, and persisting fails otherwise |
| DurableAnswers.RequestWaitsExactlyWhenItSaysSo | internal/approval/durable.go:134-174 | a request waits, for an hour, in memory and on file, exactly when the answer says approval is required |
| DurableAnswers.GrantsOnlyOnAMatchingApproval | internal/approval/durable.go:84-108 | RequestApproval grants only on a verified, lasting approve receipt submitted for an issued request of the same server, tool, session and agent, and returns it |
| DurableAnswers.SubmitSettlesExactlyWhen | internal/approval/durable.go:176-242 | over every run a receipt for a waiting request settles it exactly if it lasts, verifies, names its subject, decides and both file operations work, and what is then answered and held |
| DurableAnswers.SubmitUnknownAnswersFromMemory | internal/approval/durable.go:200-211 | for an ID not waiting SubmitReceipt changes nothing and answers with the receipt memory has for that subject, even one that has expired |
| DurableExact.LoadsExactlyWhen | internal/approval/durable.go:325-426 | a directory, whoever wrote it, loads exactly if every file is whole, requests are complete and filed right, and lasting receipts are verified, deciding, filed right and match their requests |
| DurableExact.LoadWaitsExactlyFor | internal/approval/durable.go:393-426 | after a load exactly the unexpired requests without a lasting receipt wait, as on file |
| DurableExact.LoadedGrantIsGenuine | internal/approval/durable.go:325-391 | whatever a directory holds, what it makes RequestApproval grant is a verified, lasting approval of that subject |
| DurableReload.GreatestNameWins | internal/approval/durable.go:325-391 | with the files listed by name, a reload has a receipt for a subject exactly when an unexpired one is on disk, and keeps the one with the greatest file name |
| DurableReload.ReloadedAnswer | internal/approval/durable.go:84-108 | right after a reload the reply to any well-formed call is the decision of the greatest-named unexpired receipt of its subject, with that receipt if it approves |
| DurableReload.ReloadKeepsTheAnswerExactlyWhen | internal/approval/durable.go:325-391 | over every run, after a crash and reload a call is answered as before if and only if the receipt it would have been answered from is the greatest-named unexpired one |
| DurableReload.ReloadKeepsTheDecisionExactlyWhen | internal/approval/durable.go:325-391 | over every run, a crash and reload keep grant or deny if and only if the greatest-named unexpired receipt says what the one answered from said |
| DurableReload.ReloadCanReverseTheAnswer | internal/approval/durable.go:325-391 | for any denying and approving receipt of one subject with the greater name approving, a run answers a call with the denial, and after a crash and load with the approval |
| DurableReload.ReloadDecisionIsOrderFree | internal/approval/durable.go:358-391 | over all reading orders a call is approved or not alike if and only if its subject's unexpired receipts agree |
| DurableReload.DirectoryOrderExists | internal/approval/durable.go:329-332 | every state directory has a listing by name |
| DurableReload.TornDirectoryIsReachable | internal/approval/durable.go:275-291 | a run leaves a directory that does not load |
| DurableTheorems.StepKeeps | internal/approval/durable.go:76-453 | every critical section and file operation keeps the files, maps and history consistent |
| DurableSimulation.RequestIsARun | internal/approval/durable.go:76-174 | RequestApproval, with any outcome of its write, is a run of the steps the theorems quantify over |
| DurableSimulation.CleanupIsARun | internal/approval/durable.go:428-453 | Cleanup, whichever removals fail, is such a run, one step per expired entry |
| DurableSimulation.SubmitIsARun | internal/approval/durable.go:176-242 | SubmitReceipt, with any outcome of its write and removal, is such a run |
| DurableSimulation.GetPendingIsARun | internal/approval/durable.go:244-262 | GetPendingRequest, whether or not the removal works, is such a run |
| DurableSimulation.OpeningIsARun | internal/approval/durable.go:47-74 | opening an engine over the directory's listing by name is such a run |
| ContextProvenance.IndexFragments | internal/contextprovenance/evaluator.go:38-53 | indexing succeeds exactly on well-formed fragments with distinct IDs |
| ContextProvenance.Dfs | internal/contextprovenance/evaluator.go:80-94 | the three-colour search terminates; it reports a cycle only if there is one, and otherwise ranks everything it finished |
| ContextProvenance.Cyclic | internal/contextprovenance/evaluator.go:76-101 | true if and only if the graph has a cycle, in whatever order fragments are visited |
| ContextProvenance.StructuralOk | internal/contextprovenance/evaluator.go:55-74 | version, ticks, parents and acyclicity, as an if and only if |
| ContextProvenance.Ceil | internal/contextprovenance/evaluator.go:106-117 | a memoised call returns the least trust among the fragment's ancestors and keeps the memo table correct |
| ContextProvenance.Ceilings | internal/contextprovenance/evaluator.go:103-122 | every entry is the minimum trust over all ancestors |
| ContextProvenance.AncestryIds | internal/contextprovenance/evaluator.go:124-140 | lists exactly the ancestors, each once, every parent before its child |
| ContextProvenance.AncestryBreach | internal/contextprovenance/evaluator.go:142-170 | true if and only if some derivation edge in the target's ancestry raises declared trust |
| ContextProvenance.BreachIsARisingEdge | internal/contextprovenance/evaluator.go:150-160 | the ceiling test fires somewhere in the ancestry if and only if some edge there rises |
| ContextProvenance.Authorize | internal/contextprovenance/evaluator.go:243-283 | AUTHORITATIVE exactly when the root is well formed, the target exists, no ancestry edge rises and the target's declared trust reaches the required level; every other outcome's reason |
| ContextGraph.RankedIsAcyclic | internal/contextprovenance/evaluator.go:76-101 | a graph whose fragments can be numbered parents first has no cycle |
| ContextGraph.FallNeedsARisingEdge | internal/contextprovenance/evaluator.go:142-170 | declared trust can be lower at the far end of a path only if some edge on the way rises |
| ContextGraph.CeilingWithoutRise | internal/contextprovenance/evaluator.go:272-280 | with no rising edge in the ancestry the ceiling is the declared trust |
| ContextExact.AuthoritativeExactlyWhen | internal/contextprovenance/evaluator.go:243-283 | spelled out over the fragments and the four trusts: exactly which fragments are authoritative under a root |
| ContextExact.WholeAncestryMeetsTheRequirement | internal/contextprovenance/evaluator.go:142-170 | every fragment behind an authoritative one declares at least the trust required |
| ContextExact.WellFormedExactlyWhen | internal/contextprovenance/evaluator.go:38-74 | a root is well formed exactly if version, texts, trusts, ticks, parents and distinct IDs are right and there is no cycle |
| ContextExact.DominatesSpelledOut | internal/contextprovenance/evaluator.go:8-36 | which of the four trusts each requirement accepts |
| ContextExact.HigherIsNeverRefused | internal/contextprovenance/evaluator.go:32-36 | a trust above an accepted one is accepted |
| DuplicateMembers.RejectDuplicateKeys | internal/incidentbundle/bundle.go:562-611 | the explicit-stack scan finds the first repeated member in document order, and one exactly when some object at some depth repeats a name |
| DuplicateMembers.RejectDup | internal/killswitch/control.go:346-374 | the recursive scan finds the same member, or stops right after the value |
| DuplicateMembers.ScansAgree | internal/killswitch/control.go:346-374 | on every document the two scans agree |
| DuplicateMembers.FirstRepeatFindsRepeats | internal/incidentbundle/bundle.go:558-561 | a first repeat exists if and only if some object repeats a name |
| DuplicateMembers.ScanValue | internal/incidentbundle/bundle.go:584-609 | scanning any value in any stack finds its first repeat or leaves the stack as after a value |
| Episode.CheckEpisode | internal/incidentbundle/bundle.go:635-697 | accepts exactly the episodes that, without auxiliary events, are the four stages in order plus at most one confirmed effect superseding the first, unconfirmed one |
| Episode.AtMostTwoEffects | internal/incidentbundle/bundle.go:661-683 | no accepted episode has more than two external effects |
| Episode.TargetIsFirstEffect | internal/incidentbundle/bundle.go:702-718 | the only valid upgrade target is the first effect of a complete, not yet upgraded episode |
| IncidentBundle.Bundle.Append | internal/incidentbundle/bundle.go:132-191 | content is the builder's, framing is not; the event list stays linked and the manifest tallied |
| IncidentBundle.Bundle.Seal | internal/incidentbundle/bundle.go:195-218 | signs exactly a non-empty bundle under an Ed25519 label |
| IncidentBundle.VerifyEvents | internal/incidentbundle/bundle.go:224-332 | accepts exactly linked, bound, tallied, acceptable and correctly signed bundles, keys and signatures compared as decoded bytes |
| IncidentBundle.SealedBundleVerifies | internal/incidentbundle/bundle.go:132-332 | an appended and sealed bundle verifies under its signer's key if and only if it names a bundle and a policy and tells an acceptable episode |
| IncidentExact.VerifiesExactlyWhen | internal/incidentbundle/bundle.go:224-332 | spelled out: version, names, count, head, each event's place, link, hash and payload, the episode, and a key that vouches for the whole manifest |
| IncidentExact.AppendsExactly | internal/incidentbundle/bundle.go:132-191 | exactly which events Append takes, and every field of what it records |
| IncidentExact.SignatureCoversManifest | internal/incidentbundle/bundle.go:739-743 | the signed bytes determine every manifest field but the signature |
| IncidentBundle.HeadCommitsToEvents | internal/incidentbundle/bundle.go:242-281 | two linked event lists with one head are equal but for empty payloads, or a colliding pair is exhibited |
| IncidentBundle.ManifestPinsEvents | internal/incidentbundle/bundle.go:224-332 | two verified bundles under one manifest have the same events but for empty payloads, or a colliding pair is exhibited |
| IncidentBundle.EventsArePinnedExactlyWhen | internal/incidentbundle/bundle.go:224-332 | a verified bundle's events can be exchanged for others like them, under the same manifest, if and only if one carries the empty payload, or none and the empty payload's hash |
| IncidentBundle.VerifiedAlike | internal/incidentbundle/bundle.go:229-281 | of the lists equal to a verified one but for empty payloads, exactly those whose every payload is bound verify under its manifest |
| IncidentBundle.EmptyPayloadsAreNotPinned | internal/incidentbundle/bundle.go:224-332 | a verified bundle stays verified under the same manifest when its empty payloads are left out |
| Hex.DigestUpToCase | internal/incidentbundle/bundle.go:720-727 | a digest is taken if and only if it is a lowercase SHA-256 digest once its letters are lowered |
| Hex.UppercaseDigestIsTaken | internal/incidentbundle/bundle.go:720-727 | some digest that is not lowercase is taken |
| Hex.DecodeEncode | internal/incidentbundle/bundle.go:212-217 | bytes written as hex read back as themselves |
| Hex.EncodeDecode | internal/incidentbundle/bundle.go:319-327 | exactly even-length texts of hex digits decode, and re-encode to their lower case |
| IncidentBench.FingerprintInjective | internal/incidentbench/boundary.go:110-124 | on NUL-free valid trajectories the fingerprint determines everything checkAuth reads, hence its verdict |
| IncidentBench.BuildFingerprint | internal/incidentbench/boundary.go:110-124 | the loop over the grants builds exactly the fingerprint |
| IncidentBench.CheckAuth | internal/incidentbench/boundary.go:126-147 | authorized exactly when principal, tenant and epochs match and some grant names the effect |
| IncidentBench.AuthorizedExactlyWhen | internal/incidentbench/boundary.go:126-147 | authorized exactly if the delegation is to the declared principal and tenant, in both epochs, and lists the effect's kind, target and tenant |
| IncidentBench.ValidExactlyWhen | internal/incidentbench/model.go:241-271 | exactly which trajectories are valid |
| IncidentBench.Boundary.Evaluate | internal/incidentbench/boundary.go:177-220 | the first delivery decides, caches and commits; later ones return the first result and change nothing; commits stay equal to cached ALLOW results |
| IncidentBench.FixtureCount | internal/incidentbench/boundary.go:153-175 | the counter of a kind is the sum over its targets |
| IncidentBench.CommitCountsOnce | internal/incidentbench/boundary.go:47-77 | a commit adds one to its own kind's count and to no other |
| BenchRecorder.DedupKeyIdentifies | internal/incidentbench/recorder.go:40-54 | equal keys mean the same trajectory ID and effect, or the hash collides on the two texts |
| BenchRecorder.BuildBundle | internal/incidentbench/recorder.go:184-223 | whatever the facts, the bundle it seals verifies under the synthetic key |
| BenchRecorder.Recorder.PutIfAbsent | internal/incidentbench/recorder.go:100-126 | one record per key: exactly when it succeeds, what it stores, and that a refusal changes nothing; every stored record stays complete and under the key of its own incident |
| BenchRecorder.Recorder.Record | internal/incidentbench/recorder.go:83-98 | only results denied for authority are recorded |
| BenchReport.Execute | internal/incidentbench/report.go:69-97 | on every corpus of NUL-free trajectories: it succeeds if and only if each is valid, an effect ID comes back only as the same request (a denied one only as the same incident), and each new denial can be recorded under a key of its own; then fixture counters equal distinct allowed effects per kind, recorded keys are exactly those of trajectories failing checkAuth, and the effects committed are exactly those whose first trajectory is authorized and has a fixture for its target; however it ends, every record kept is complete |
| BenchReport.Assemble | internal/incidentbench/report.go:145-160 | true positives, false negatives and false positives are the numbers of labelled recorded, labelled unrecorded and unlabelled recorded trajectories |
| BenchReport.ScoresAddUp | internal/incidentbench/report.go:145-160 | found and missed add up to the labelled, and either error count is zero exactly when there is no such error |
| BenchReport.RunCorpus | internal/incidentbench/report.go:62-97 | runs through exactly those corpora; one labelled by authority scores no false negative, and no false positive unless keys collide |
| BenchReport.AuthorizedKeysAreNotRecorded | internal/incidentbench/report.go:145-160 | without a collision no authorized trajectory shares a recorded key |
| BenchReport.ReadyExactlyWhen | internal/incidentbench/report.go:69-97 | whether the next trajectory goes through the cache and the records it meets is decided by the trajectories alone, as that condition says |
| BenchReport.CleanRunsThroughExactlyWhen | internal/incidentbench/report.go:69-97 | a corpus of recordable trajectories with effect IDs of their own runs through if and only if the keys of its incidents differ |
| BenchReport.KeysDifferUnlessTheyCollide | internal/incidentbench/recorder.go:40-54 | on such a corpus the keys differ unless the hash collides on two key texts |
| BenchCorpus.Pad6Injective | internal/incidentbench/corpus.go:28-29 | zero-padded numbers name their number, also beyond six digits |
| BenchCorpus.LabelIsHonest | internal/incidentbench/corpus.go:43-51 | the scenario label calls for an incident exactly where the generated delegation does not authorize the effect |
| BenchCorpus.GeneratedIsClean | internal/incidentbench/corpus.go:15-87 | every generated corpus is valid, NUL-free, honestly labelled and has distinct effect IDs |
| BenchCorpus.RunSize | internal/incidentbench/report.go:62-97 | every generated corpus of at least the default size runs to the end if and only if the keys of its incidents differ, which they do without a collision; it then finds exactly the labelled incidents, and without a collision reports no other |
| CapabilityChain.UnionLattice | internal/capability/capability.go:1102-1114 | the union of both lists, each capability once, in lattice order |
| CapabilityChain.NewlyHeld | internal/capability/capability.go:1090-1100 | what is not held yet, keeping lattice order |
| CapabilityChain.Highest | internal/capability/capability.go:1116-1130 | a greatest capability of the list, if any |
| CapabilityChain.ConfirmedDelta | internal/capability/capability.go:869-891 | the delta is disjoint from what is held and in lattice order |
| CapabilityChain.ChainEvaluator.Eval | internal/capability/evaluator.go:153-338 | exactly when it succeeds, what its receipt accounts for, the state it leaves, and that a failure changes nothing |
| CapabilityChain.ChainEvaluator.AdvanceAfterError | internal/capability/evaluator.go:340-352 | records a pause as predecessor, ignores a rewind or an empty hash |
| CapabilityTheorems.EveryRunIsOneChain | internal/capability/evaluator.go:153-352 | every run's receipts and recorded pauses form one hash-linked chain with increasing step IDs, each before the previous after, after the disjoint union of before and delta in lattice order |
| CapabilityTheorems.HeldIsWhatDeltasAdded | internal/capability/evaluator.go:274-333 | what is held at any point is the baseline and the deltas of earlier receipts, nothing else |
| CapabilityTheorems.DeltasAreDisjoint | internal/capability/capability.go:1090-1114 | no capability is in two receipts' deltas |
| CapabilityTheorems.EnvelopeIsOneWay | internal/capability/evaluator.go:294-334 | the envelope has crossed exactly when some earlier receipt was not allowed |
| CapabilityTheorems.UntypedBoundariesAreJudged | internal/capability/evaluator.go:213-263 | over every run of steps without a structured effect, each receipt with a boundary signal is allowed exactly if the effect its signals derive was found attributable, and each without one is of a step inside the workspace |
| CapabilityExact.ReceiptAddsExactly | internal/capability/evaluator.go:274-333 | over every run, a receipt's delta holds exactly what its own signals confirm and no earlier receipt added |
| CapabilityExact.DeltaHoldsExactly | internal/capability/capability.go:869-891 | capability by capability: boundary requests confirm themselves, runtime markers only an attributable step that crosses nothing, less what is held |
| CapabilityExact.DerivedEffectIs | internal/capability/capability.go:1021-1033 | which effect each boundary signal is judged as |
| CapabilityExact.EvaluatesExactlyWhen | internal/capability/evaluator.go:153-262 | exactly which steps are evaluated, and what attribution is asked about |
| CapabilityExact.ReceiptObserves | internal/capability/evaluator.go:274-327 | what a receipt says it observed, whether authority changed, and what stays provisional |
| CapabilityExact.TipCommitsToChain | internal/capability/receipt.go:184-235 | two chains ending on one hash are equal, or the digest collides on two artifacts exhibited, or hits the fixed first hash |
| CapabilityTheorems.Adapter.Mediate | internal/proxy/tools_call.go:323-365 | every mediated call appends exactly one artifact to the chain, of a step without a structured effect; only an allowed receipt leaves it unpaused; every receipt so far was judged as such steps are |
| Lineage.DetectAgentCycles | internal/lineage/registry.go:158-189 | succeeds if and only if no agent is its own ancestor |
| Lineage.WalkToRoot | internal/lineage/registry.go:206-233 | the loop with its seen set and depth limit finds exactly the root-first chain, or fails when there is none |
| Lineage.ChainIgnoresSteps | internal/lineage/registry.go:206-233 | a chain does not depend on how many steps were allowed for it |
| LineageValidate.NewRegistry | internal/lineage/registry.go:14-156 | builds the registry exactly from acceptable agents, grants and trajectories |
| LineageValidate.ValidateAt | internal/lineage/validate.go:47-140 | allows exactly when all three rules hold, names the first that fails, and reports the grant chain |
| LineageTheorems.AllowedCallFollowsTheParentPath | internal/lineage/validate.go:77-117 | an allowed call's grant subjects are exactly the actor's parent path from a root agent, at most 32, none repeated, all under the human who issued the root |
| LineageTheorems.AllowedCallIsAttenuated | internal/lineage/validate.go:98-116 | every grant's capabilities and resources are within those of every earlier grant, and every grant covers the request |
| LineageTheorems.AllowedInstantsFormOneInterval | internal/lineage/validate.go:47-140 | the instants at which a call is allowed are one half-open interval, computed from the registry |
| LineageTheorems.AcceptedIsRegistered | internal/lineage/registry.go:14-156 | what NewRegistry accepts has no parent cycle and indexes grants by their own IDs |
| LineageExact.AllowedExactlyWhen | internal/lineage/validate.go:47-140 | over a registered registry: a call is allowed exactly if it is the one declared for its trajectory, field for field, and the named grant comes down to the actor from a human through at most 32 current grants, each covering the call and handed down by its parent's holder |
| LineageExact.AllowedCallIsTheDeclaredOne | internal/lineage/validate.go:120-136 | an allowed call's actor, grant, capability, server, tool, effect, prior state and resource are those of its registered trajectory |
| LineageExact.AcceptableExactlyWhen | internal/lineage/registry.go:14-156 | exactly which agents, grants and trajectories are accepted together, spelled out |
| LineageExact.AcceptedIsFilled | internal/lineage/registry.go:14-156 | what is accepted is filed under its own IDs and gives something |
| AuthState.StructuralOk | internal/authstatefidelity/evaluator.go:29-67 | accepts exactly well-formed logs and principals |
| AuthState.MayGrant | internal/authstatefidelity/evaluator.go:16-27 | some principal of that ID lists the permission |
| AuthState.Reduce | internal/authstatefidelity/evaluator.go:69-95 | replay leaves exactly the grants in force by the tick, from an entitled principal, with no later effective matching revoke |
| AuthState.Authorize | internal/authstatefidelity/evaluator.go:107-168 | allows a complete, enabled request exactly when the cited grant is active; reports revoked exactly when a matching revoke took it back |
| AuthState.RevokedStaysRevoked | internal/authstatefidelity/evaluator.go:69-95 | no well-formed extension and no later reading revives a grant that was taken back |
| AuthState.OnlyARevokeEndsAGrant | internal/authstatefidelity/evaluator.go:69-95 | an extension ends an entitlement exactly by revoking it |

## Left out

- Real files, fsync, flock, signals, process groups, goroutines and channels: only their effect on model state is kept.
- SHA-256, HMAC and Ed25519 themselves, `encoding/json`, YAML, regular expressions, globs, `netip` and symlink resolution: parameters, or trees and token streams.
- Evidence and reason strings, except where a property names the reason; operator-facing sorting of them.
- The interactive approval engine, and an approval engine without a state directory.
- Corrections of the wall clock: time never goes back in the durable approval runs, and one load reads it once.
- Foreign files in the approval state directory: files are keyed by the ID in their name.
- Execution IDs made in the same nanosecond for the same request ID: each new ID is taken to be unused.
- AuditTail.ReadLastCompleteLine: does not model read errors, and its trimming knows the ASCII spaces only.
- Audit events with strings that are not UTF-8: `encoding/json` does not give them back unchanged, so the hash of such a last record cannot be recomputed on recovery.
- Redaction and the other field rewriting before a record is encoded: an event is what is encoded.
- KineticStop.ContainmentHolds: covers one launch, because `startSupervised` has one caller in a session; encoders may start before it, which adds runs and removes none.
- PolicyReload.NoDeadlock: the file watcher's debounce loop and reload hooks are not threads of the model.
- ContextProvenance.Authorize: the origin, principal, scope and path lines of its evidence.
- IncidentBundle.Bundle.Append: a payload is its canonical JSON, which always encodes; the clock default for a zero timestamp is the caller's.
- IncidentBundle.ManifestPinsEvents: the fields inside `content` are pinned as encoded, so a nil and an empty delegation, or texts that differ in invalid UTF-8, are one value.
- Bundle parsing (`internal/incidentbundle/bundle.go:343-517`) other than the duplicate-member scan.
- CapabilityChain.ChainEvaluator.Eval: signal extraction, target binding, attribution and containment are arbitrary functions, so its laws hold whatever they answer.
- BenchRecorder.Recorder.PutIfAbsent: equality of JSON payload members is equality of whole payloads.
- BenchReport.Assemble: kind counts, latency percentiles, rates and digests.
- Loops that only look for a member of a list (`containsExact`, `exactSubset`, `coveredByChain`, `hasSignal`) are predicates.
- The policy engine, linter, dashboards, exporters, webhooks, command lines and the single-condition proof packages: they would only add easy members.
