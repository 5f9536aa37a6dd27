# DataForge compute plane: a verified model

A Dafny 4.11 model of the deterministic core of the DataForge AI compute plane, with proofs of what that core is
for. `dafny verify dfyconfig.toml` checks all of it.

| module | models |
|---|---|
| `Cancellation`, `RegistryHistory`, `LaunchProtocol` | cancellation tokens and their registry, its answers to any sequence of calls, and every interleaving of launches and cancel calls over it |
| `Launch` | the ANALYZE and APPLY launchers: checkpoints, status events, result assembly |
| `Text`, `Paths`, `Metadata`, `ObjectStorage`, `ArtifactRegistry` | path normalisation, scoped keys and URIs, write-once content-addressed saves |
| `ArchiveSafety` | the checks on an uploaded archive |
| `Slugs`, `ActionPlan`, `Ordering`, `Idempotency` | plan preview, execution validation, idempotency keys |
| `CandidateVersion`, `ExportPackage`, `SourceSelection`, `ApplyRuntime` | the APPLY pipeline from the choice of its source to the surfaced export |
| `DecisionPolicy`, `DecisionReport`, `DataForgeScore`, `ScoreMeaning`, `ModelImpact` | gates, object actions and scores, grouping, readiness, dataset score with what its components measure, score diff, verdicts |
| `ManifestFraming` | the JSONL manifest: builder, printer, reader, validator |
| `Basics`, `Domain` | deduplication and the enumerations that several engines share |

Objects whose methods change them are classes with the same fields; loops that build lists or dicts are methods with
loops, proved against functions about which the lemmas are stated. Plugins, digests, the clock, JSON encoding and
Dagster are parameters.

Digests are never taken to be injective on all inputs. Where a result needs two digests to differ, it names the two
payloads and says "or they collide".

## Where the code differs from what it says

* APPLY emits COMPLETED while materialising, before the launcher's second check (app/orchestration/apply_assets.py:199-200), so
  "exactly one terminal event" holds of ANALYZE only. `ApplyEndsOnceIff` says when it holds of APPLY.
* Two launches of one job id share a token; the first to finish discards it under the second.
  `SharedIdLosesCancellation` is such a run, and `CancelReachesLaunchIff` says exactly how long a cancel reaches a launch.
* Scope ids are not checked for slashes. `SlashInIdMergesScopes` shows two scopes with one prefix, `ScopesOverlapIff`
  when two adapters share a key.
* Metadata keys are lower-cased after the registry added its own. A caller entry such as `SHA256` behind `sha256` overrides the
  registry's (`CapitalisedKeyShadows`), and repeating the save then fails. `RepeatedSave` gives the exact condition.
* The archive checker takes any normalised name that begins with two dots for a climb, so `..notes/a.csv` is refused
  (`DottedNotesAreRefused`). `PathAcceptedIff` has the exact condition.
* `_object_hard_gates` fires the PII gate on an object's evidence even if the policy has switched the gate off
  (`SwitchedOffGateBlocks`); `BlockedIff` includes this.
* `_select_source_ref` promises not to depend on the order of the refs (app/orchestration/apply_runtime.py:863). It does as soon as two
  different refs are eligible; `SelectionIgnoresOrderIff` says exactly when it does not.
* The report's flag for safe actions is true exactly if there is any recommended action: none ever requires approval
  (`NoActionRequiresApproval`).
* `DecisionAction.REMOVE_DUPLICATE` and class-weight steps are previewed and validated but the runtime supports neither
  (`ClassWeightsNeverRun`); `PreviewedStepIsSupportedIff` lists what it does support.
* More leakage can raise model readiness: the first leakage candidate lifts it from 0 to 0.3 if the target is missing
  (`LeakageCanRaiseReadiness`). The penalty that comes with it costs more, so the score still falls (`GraverNeverScoresHigher`).
* An archive without rows gives an empty manifest that validation rejects (`BuildThenValidate`); the validator's second test for an empty
  manifest can never fire (`ValidateManifestJsonl`).

## Model

| member | source | states |
|---|---|---|
| Cancellation.SectionsKeepConsistency | app/orchestration/cancellation.py:182-231 | register, locate and discard keep live and discarded ids apart and tokens distinct; after discard nothing is handed out until the next register |
| Cancellation.CancellationToken.Cancel | app/orchestration/cancellation.py:148-153 | the flag is set; the reason changes only if a non-empty one is given |
| Cancellation.CancellationRegistry.Register | app/orchestration/cancellation.py:182-199 | a pre-cancel token is handed out unchanged, otherwise a clear one; the id is live and no longer discarded |
| Cancellation.CancellationRegistry.Cancel | app/orchestration/cancellation.py:201-220 | refused exactly for discarded ids; otherwise the id's own token, and no other, is flagged |
| Cancellation.CancellationRegistry.Discard | app/orchestration/cancellation.py:227-231 | the id leaves the live ids and is remembered as discarded |
| RegistryHistory.Replay | app/orchestration/cancellation.py:131-231 | whatever calls are made on a new registry and the tokens it hands out, `is_cancelled`, `raise_if_cancelled` and `cancel` answer as a three-state automaton per job id does, with the reason raised |
| RegistryHistory.AnswersAt | app/orchestration/cancellation.py:131-231 | each answer depends on the calls before it alone |
| RegistryHistory.TokenIsLive | app/orchestration/cancellation.py:182-231 | a token handed out follows its job's state up to the first discard and keeps that state from then on |
| RegistryHistory.CancellationStands | app/orchestration/cancellation.py:201-231 | a cancelled job stays cancelled under any calls but its discard |
| RegistryHistory.TokenStaysCancelled | app/orchestration/cancellation.py:148-164 | a cancelled token stays cancelled under any calls, discards and new registrations included |
| LaunchProtocol.RegistryAlwaysConsistent | app/orchestration/cancellation.py:167-231 | in every state of every run live and discarded ids are disjoint, live ids hold different tokens, each made for its id, and every launch is on its launcher's trail |
| LaunchProtocol.CancelledForever | app/orchestration/cancellation.py:148-157 | a cancelled flag never resets, whatever is interleaved |
| LaunchProtocol.NoLostCancellation | app/orchestration/cancellation.py:201-220 | a cancel that writes to the token of a launch not yet past its check after materialisation, whenever it looked the token up, makes that launch end cancelled, CANCELLED last, unless materialisation raised; before the first check nothing runs |
| LaunchProtocol.CancelLandsIff | app/orchestration/cancellation.py:182-220 | with one live launch per id, a cancel holds the launch's token, whether it looked it up before or after the launch registered, exactly if it found one and nothing of the id was discarded in between |
| LaunchProtocol.FlaggedIsDoomed | app/orchestration/analyze_workflow.py:124-174 | an undecided launch with a flagged token never returns a result, whoever flagged it and whatever follows |
| LaunchProtocol.TokenHoldsLastReason | app/orchestration/cancellation.py:148-153 | a token holds the last non-empty reason written to it, or the default |
| LaunchProtocol.CancelledByCheck | app/orchestration/analyze_workflow.py:124-174 | a launch that ends cancelled was ended by one of its own two checks, and that check saw the flag |
| LaunchProtocol.RaisesLastReason | app/orchestration/analyze_workflow.py:168-174 | the error carries the last reason any cancel had written to the token when the error was built, even one that came after the check; a cancelled launch is discarded only after raising |
| LaunchProtocol.PreCancelledNeverRuns | app/orchestration/cancellation.py:182-220 | a cancel answered before register, with no discard between, means nothing is ever materialised |
| LaunchProtocol.CancelReachesLaunchIff | app/orchestration/cancellation.py:182-231 | without any restriction a cancel finds a launch's token exactly until some launch of the same id is discarded |
| LaunchProtocol.CancelAfterDiscardIsRefused | app/orchestration/cancellation.py:201-231 | after discard a cancel finds no token and changes nothing until the next register |
| LaunchProtocol.NoSpuriousCancellation | app/orchestration/analyze_workflow.py:124-174 | behind every cancelled launch there is a cancel call for its own id that wrote its token |
| LaunchProtocol.RetryIsIsolated | app/api/main.py:268-278 | a cancel in flight when a retry registers can never touch the retry's token |
| LaunchProtocol.SharedIdLosesCancellation | app/api/main.py:361-374 | with two live launches of one id there is a run in which a live launch can no longer be cancelled |
| Launch.AnalyzeEndsOnce | app/orchestration/analyze_workflow.py:124-212 | an ANALYZE run emits one terminal event, last; it returns a result exactly if that is COMPLETED |
| Launch.ApplyResultIffNoFailure | app/orchestration/apply_workflow.py:192-309 | an approved APPLY run returns a result exactly if neither FAILED nor CANCELLED was emitted |
| Launch.ApplyEndsOnceIff | app/orchestration/apply_assets.py:186-226 | exactly when an APPLY run emits one terminal event |
| Launch.ApplyCanEndTwice | app/orchestration/apply_workflow.py:238-247 | a run that ends with COMPLETED and then CANCELLED |
| Launch.RunBetweenChecks | app/orchestration/apply_workflow.py:192-256 | checkpoints, events and errors of both launchers on a real token, equal to the trail |
| Launch.LaunchAnalyze | app/orchestration/analyze_workflow.py:124-212 | events equal the trail; the result lists all assets and the last URI of each name |
| Launch.LaunchApply | app/orchestration/apply_workflow.py:192-309 | the same for APPLY; without approval nothing is touched |
| Launch.AssembleApply | app/orchestration/apply_workflow.py:258-309 | candidate, export, model-impact and synthetic results are those of the last asset event that carries them |
| Launch.SyntheticUriOnlyIfMaterialised | app/orchestration/apply_workflow.py:273-278 | a synthetic URI is surfaced exactly if the synthetic asset's status is "materialized" |
| Paths.NormPath | app/adapters/object_storage.py:319-332 | the normalisation loop computes the collapsed segment stack |
| Paths.CollapseIsWalk | app/adapters/object_storage.py:319-332 | for relative paths the loop computes the directory walk, or leaves a leading ".." if the walk leaves the root |
| Paths.ResolveIffNeverClimbs | app/adapters/object_storage.py:319-332 | the walk stays inside exactly if no prefix of the segments climbs above the root |
| ObjectStorage.SafeRelativePathIsWalk | app/adapters/object_storage.py:319-332 | a name is accepted exactly if its walk never leaves the root and ends strictly below it, and becomes that walk |
| ObjectStorage.KeyIsConfined | app/adapters/object_storage.py:250-280 | which names get a key; the key lies under the scope prefix and has no empty, "." or ".." segment below it |
| ObjectStorage.UriKeyRoundTrip | app/adapters/object_storage.py:260-283 | key to URI to key, and accepted URI to key to URI |
| ObjectStorage.NameToUriToKey | app/adapters/object_storage.py:250-269 | the URI of a name leads to the key of the name |
| ObjectStorage.CleanedRootShape | app/adapters/object_storage.py:335-336 | an adapter root never starts or ends with a slash |
| ObjectStorage.ScopesAreDisjoint | app/adapters/object_storage.py:114-122 | scopes with different slash-free ids have no key in common |
| ObjectStorage.ScopesOverlapIff | app/adapters/object_storage.py:278-280 | for any ids, two adapters share a key exactly if one prefix lies at or below the other and neither has a ".." |
| ObjectStorage.SlashInIdMergesScopes | app/adapters/object_storage.py:114-122 | two different scopes with one prefix |
| ObjectStorage.MinioObjectStorageAdapter.Put | app/adapters/object_storage.py:124-170 | exactly one key is written, with digest and metadata, even if the reference is then rejected |
| ObjectStorage.MinioObjectStorageAdapter.Head | app/adapters/object_storage.py:227-231 | what is known of the stored object, or why not |
| ObjectStorage.CheckedIff | app/adapters/object_storage.py:154-170 | which references the contract accepts |
| ObjectStorage.HeadIs | app/adapters/object_storage.py:227-317 | not found, or address, size, metadata, recorded digest or zeros, and content type or the general one |
| Metadata.HasAllIffShadowsNone | app/adapters/object_storage.py:140-147 | entries written into metadata survive lower-casing exactly if no differently spelled key follows them |
| Metadata.LowerKeysAreLower | app/adapters/object_storage.py:347-350 | lower-casing again on reading changes nothing |
| ArtifactRegistry.SafeComponentIff | app/adapters/artifact_registry.py:193-205 | exactly the stripped values that are clean path components are accepted |
| ArtifactRegistry.ObjectNameDecodes | app/adapters/artifact_registry.py:173-186 | an object name decodes to its six components in one way |
| ArtifactRegistry.ObjectNameIsFixed | app/adapters/artifact_registry.py:173-186 | normalisation leaves object names alone |
| ArtifactRegistry.SaveActsOnOneKey | app/adapters/artifact_registry.py:36-152 | a save acts on its address's key only and writes there only if nothing is stored |
| ArtifactRegistry.ArtifactRegistry.SaveArtifact | app/adapters/artifact_registry.py:36-99 | the method on the adapter does what the save function says |
| ArtifactRegistry.WriteOnce | app/adapters/artifact_registry.py:36-152 | over any sequence of saves nothing stored changes or disappears |
| ArtifactRegistry.AlwaysAddressedByContent | app/adapters/artifact_registry.py:36-99 | every object ever stored has the digest that is in its key |
| ArtifactRegistry.SavedBytesAreThere | app/adapters/artifact_registry.py:36-152 | a returned record names a stored object with the digest of the given bytes |
| ArtifactRegistry.RecordIs | app/adapters/artifact_registry.py:36-170 | kind, format, schema, job, version, configuration, id, URI, hash, size and media type of the returned record, from the request and the stored object |
| ArtifactRegistry.ObjectNameIs | app/adapters/artifact_registry.py:173-186 | the parts of an object name in order |
| ArtifactRegistry.StoredObjectIs | app/adapters/artifact_registry.py:79-93 | a new object holds the bytes, the media type and the six entries, unless the caller shadows them |
| ArtifactRegistry.OtherEntriesAreKept | app/adapters/artifact_registry.py:88-93 | every other entry of the caller is stored under its lower-case key |
| ArtifactRegistry.OwnMetadataMatchesIff | app/adapters/artifact_registry.py:101-152 | what a save wrote passes the registry's own check exactly if the caller's metadata shadows none of its entries |
| ArtifactRegistry.RepeatedSave | app/adapters/artifact_registry.py:36-152 | repeating a save later writes nothing and returns the same record, or fails, under an exact condition |
| ArtifactRegistry.CapitalisedKeyShadows | app/adapters/object_storage.py:140-147 | a caller that lists `sha256` and then `SHA256` overrides the digest entry |
| ArtifactRegistry.RepeatedSaveOfLowerCaseCaller | app/adapters/artifact_registry.py:36-152 | with lower-case caller keys a save can be repeated for ever: same record, nothing written |
| ArchiveSafety.ValidateZipStream | app/ingestion/archive_safety.py:220-259 | accepted exactly if no entry stops the run; rejected for the first that does; the report misses nothing |
| ArchiveSafety.ValidateArchiveSeekable | app/ingestion/archive_safety.py:169-195 | the compressed size is judged first, then whether the stream is a zip file, then the entries |
| ArchiveSafety.AcceptedIffTotals | app/ingestion/archive_safety.py:235-252 | the running size bound is the bound on the total: order never decides acceptance |
| ArchiveSafety.PathAcceptedIff | app/ingestion/archive_safety.py:262-295 | exactly which entry names pass |
| ArchiveSafety.EntryReasonIs | app/ingestion/archive_safety.py:262-327 | what an entry is refused for, in the order of the checks |
| ArchiveSafety.ExtensionIs | app/ingestion/archive_safety.py:309-327 | the extension is what follows the last dot of the base name, in lower case |
| ArchiveSafety.SymlinkIff | app/ingestion/archive_safety.py:298-306 | which attribute bits mark a symbolic link |
| ArchiveSafety.DottedDirectoryIsRefused | app/ingestion/archive_safety.py:262-295 | a file below a directory whose name starts with two dots stays inside the root and is refused |
| ArchiveSafety.SafeEntryIsClean | app/ingestion/archive_safety.py:309-331 | each reported name leads where the entry leads, never out of the root, with the same base name and an allowed extension |
| Slugs.SlugsAreNormalForms | app/kernel/action_plan.py:551-552 | slugging yields a slug and leaves exactly the slugs alone |
| Slugs.SlugOfWords | app/kernel/action_plan.py:551-552 | slugs of the texts on both sides of any other character are joined by one underscore; a side without letters or digits is dropped; without any the slug is "step" |
| Slugs.SlugOfWord | app/kernel/action_plan.py:551-552 | a word is its own slug in lower case |
| ActionPlan.SelectCandidateIff | app/kernel/action_plan.py:277-321 | a method is selected exactly if it is not blocked, its last candidate entry is recommended or available, and policy enables it; otherwise the error says which of these failed, a block with its last reason |
| ActionPlan.DefaultSelectionIff | app/kernel/action_plan.py:277-321 | without override a well-formed recommendation fails only if policy does not enable its method |
| ActionPlan.BuildActionPlanPreview | app/kernel/action_plan.py:128-185 | a plan exactly if recommendation ids are distinct, every selection names one, every chosen method may be selected and step ids differ; approval is required exactly if some selected method requires it; every other field of the plan and of each step is stated from the request; otherwise the first fault, in that order |
| ActionPlan.PlanOfIs | app/kernel/action_plan.py:128-185 | source, report, selections, user, mode, target name, time, policy version and id of a plan, its steps, and its checks and outputs as those of steps and selections |
| ActionPlan.DraftStepIs | app/kernel/action_plan.py:324-449 | kind, method, plugin, inputs, output, seed, configuration key by key, hashes, checks and preconditions of a step |
| ActionPlan.GatesOfAppend | app/kernel/action_plan.py:154 | the checks of a plan stand in the order of its steps |
| ActionPlan.OutputsOfAppend | app/kernel/action_plan.py:155-157 | the outputs of a plan stand in the order of its selections |
| ActionPlan.ValidIffDistinct | app/domain/decision.py:338-352 | the plan validator can object to repeated step ids only |
| ActionPlan.RepeatedSelectionIsRejected | app/domain/decision.py:338-343 | selecting a recommendation twice is never previewed |
| ActionPlan.PreviewedStepsFormAChain | app/kernel/action_plan.py:136-152 | each step of a preview depends on the one before it and on nothing else |
| ActionPlan.ListOrderIsTheOnlySchedule | app/kernel/action_plan.py:136-152 | the list order of a chain is its only topological order |
| ActionPlan.PreviewIsRepeatable | app/kernel/action_plan.py:158-166 | plan id and steps do not depend on user, target name or time |
| ActionPlan.ValidateStepIntegrity | app/kernel/action_plan.py:458-485 | the first step with a wrong key or scope is reported |
| ActionPlan.FirstStepErrorIs | app/kernel/action_plan.py:458-485 | what is reported is the first step whose key does not cover it or whose scope is not candidate-only, and which of the two |
| ActionPlan.ValidateIff | app/kernel/action_plan.py:193-244 | accepted exactly if source and mode fit, there are steps, all intact, and the approval metadata binds the plan or none is needed |
| ActionPlan.RefusalIsFirstFault | app/kernel/action_plan.py:193-244 | a refusal names the first fault in the order source, mode, steps, approval |
| ActionPlan.PreviewedPlanIsAccepted | app/kernel/action_plan.py:193-244 | a previewed plan is accepted without metadata exactly if the source matches and no selected method requires approval, with metadata exactly if that names source, report, plan and integrity hash |
| ActionPlan.ApprovalBindsOnePlan | app/kernel/action_plan.py:488-531 | approval metadata for one plan is refused for any other, or the two collide |
| ActionPlan.KeysSealSteps | app/kernel/action_plan.py:458-475 | accepted steps with one key agree on configuration hash, dependencies and id, or collide |
| Ordering.SortsAgreeIff | app/kernel/idempotency.py:193-221 | sorting forgets the order of a list and nothing else |
| Idempotency.HashListsAgreeIff | app/kernel/idempotency.py:193-194 | hash lists are canonically equal exactly if they hold the same non-empty hashes |
| Idempotency.AnalyzeKeysAgreeIff | app/kernel/idempotency.py:110-128 | analyze keys agree exactly if scope, hashes as sets, configuration, contract-pack version and pins as multisets agree, or collide |
| Idempotency.ApplyKeysAgreeIff | app/kernel/idempotency.py:131-153 | apply keys likewise, with policy entries as multisets and step keys in order |
| Idempotency.AnalyzeAndApplyKeysDiffer | app/kernel/idempotency.py:110-153 | no analyze key is an apply key |
| Idempotency.PolicyMapsAgreeIff | app/kernel/idempotency.py:197-198 | the ordered policy entries agree exactly if the mappings do |
| CandidateVersion.SummaryIsConsistent | app/plugins/validation/gates.py:343-388 | export blocked, validation failed, and "a blocking check failed or the raw artifact changed" are one thing |
| CandidateVersion.SummaryBlocksIff | app/plugins/validation/gates.py:343-388 | training, evaluation and export are blocked exactly if a failed blocker says so, export also if the raw artifact changed; the kinds listed are those of the failed blockers |
| CandidateVersion.CandidateCarries | app/kernel/candidate_version.py:228-271 | status, blocks and reason codes of a candidate version, from its report or without one |
| CandidateVersion.ShowableIff | app/kernel/candidate_version.py:228-258 | a candidate is shown exactly if nothing blocking failed and the raw artifact is intact |
| ExportPackage.GatesFailIff | app/kernel/export_package.py:215-362 | each of the seven gates fails exactly if its condition stops the export, and then gives a reason |
| ExportPackage.FailedCodesAre | app/kernel/export_package.py:215-450 | which code stands for which cause, gate by gate, and no other code is listed |
| ExportPackage.GateNames | app/kernel/export_package.py:215-362 | the seven gates in order, by name |
| ExportPackage.GatesSay | app/kernel/export_package.py:215-400 | when a gate does not apply and what it then says |
| ExportPackage.ImpactGateSays | app/kernel/export_package.py:402-439 | what the model-impact gate says if it passes or does not apply |
| ExportPackage.AllArtifactsInOrder | app/kernel/export_package.py:453-483 | manifest, tabular export, texts, card, lineage, score, review queue and the others, in this order |
| ExportPackage.RunSections | app/kernel/export_package.py:215-362 | seven sections that each grow the gate list and the code list by their own statements leave the two in step |
| ExportPackage.PushModelImpact | app/kernel/export_package.py:402-439 | the list passed in grows by the codes of the returned gate exactly if that gate failed |
| ExportPackage.ArtifactsSection | app/kernel/export_package.py:332-362 | missing artifacts are pushed one by one and match the gate |
| ExportPackage.EvaluateExportGates | app/kernel/export_package.py:215-362 | the codes that the sections pushed are, each once and in order, the failed gates' own codes |
| ExportPackage.DropEmptyAndRepeated | app/kernel/export_package.py:486-494 | order-preserving removal of empty and repeated codes |
| ExportPackage.UniqueByUriIs | app/kernel/export_package.py:476-483 | of refs with one URI the first is kept, in order |
| ExportPackage.KeepFirstOfEachUri | app/orchestration/apply_runtime.py:978-986 | the loop with a seen set keeps the first ref of each URI |
| ExportPackage.ResolveArtifacts | app/kernel/export_package.py:453-483 | blocked: the manifest alone; otherwise all refs, one per URI, each the first of its URI |
| ExportPackage.BuildExportPackage | app/kernel/export_package.py:136-206 | READY exactly if no gate stops the export, exactly if no code is listed; the codes are those that have a cause, the artifacts those of the request in order, one per URI |
| ApplyRuntime.ThreadsAt | app/orchestration/apply_runtime.py:159-183 | in an executed plan call k ran step k once, on the source if k is 0 and otherwise on what call k - 1 left, with the plugin of its kind: imputation, duplicates for both duplicate kinds, SMOTE for both synthetic kinds with method smote; there are no other kinds |
| ApplyRuntime.ApplyRun.PersistActionPlan | app/orchestration/apply_runtime.py:106-137 | the plan is stored once and its artifact returned from then on |
| SourceSelection.SelectSourceRef | app/orchestration/apply_runtime.py:859-873 | the first ref the plan names, else the first raw one, else the first |
| SourceSelection.SelectsPreferred | app/orchestration/apply_runtime.py:859-873 | the selected ref is eligible, and an eligible ref put first is selected |
| SourceSelection.SelectsFirstPreferred | app/orchestration/apply_runtime.py:859-873 | of several eligible refs the first is selected |
| SourceSelection.SelectionIgnoresOrderIff | app/orchestration/apply_runtime.py:859-873 | the selection is the same for every order of the refs exactly if all eligible refs are one |
| ApplyRuntime.ApplyRun.ResolveSource | app/orchestration/apply_runtime.py:821-856 | the source is readable, and is a ref that some step names if one is given, else a raw one, else any; without refs what is stored under the first input of the first step that has inputs, or an error if none has; once resolved it stays, a failure leaves none behind |
| ApplyRuntime.ApplyRun.EnsureSplit | app/orchestration/apply_runtime.py:740-778 | a split once made is reused, otherwise it is made from the given artifact |
| ApplyRuntime.ApplyRun.ExecuteStep | app/orchestration/apply_runtime.py:560-672 | what a step returns, by kind: the output of the imputation, duplicates or SMOTE plugin on the given artifact, SMOTE on the run's split, or an unsupported-step error; only SMOTE touches split and synthetic report, as its plugin returned them |
| ApplyRuntime.ApplyRun.RunSteps | app/orchestration/apply_runtime.py:159-183 | the steps run once each, in order, each on what the one before left; a failure stops at its step |
| ApplyRuntime.ApplyRun.RunValidationGates | app/orchestration/apply_runtime.py:675-737 | the gates judge exactly the given source and candidate, once |
| ApplyRuntime.ApplyRun.ExecuteRemediationPlan | app/orchestration/apply_runtime.py:140-230 | from a fresh state the plan is executed on the selected source and the gates judge the last candidate; later calls change nothing |
| ApplyRuntime.ApplyRun.EnsureModelImpactReport | app/orchestration/apply_runtime.py:233-323 | a report is kept; failures are swallowed unless the run requires one |
| ApplyRuntime.ApplyRun.MeasureImpact | app/orchestration/apply_runtime.py:255-316 | impact is measured between source and candidate on the run's split, and not at all without numeric features |
| ApplyRuntime.ApplyRun.StoreDocuments | app/orchestration/apply_runtime.py:356-487 | candidate version, card, lineage, tabular export and manifest are stored, each made from the ones before it |
| ApplyRuntime.ApplyRun.BuildOutputs | app/orchestration/apply_runtime.py:356-526 | all documents and at last the package are stored; READY exactly if report and verdict allow it |
| ApplyRuntime.ApplyRun.ProposeVersion | app/kernel/candidate_version.py:117-222 | the stored version follows the report and names input and output hashes, artifacts, gates report, step summaries and synthetic data; a synthetic one without rows is never proposed |
| ApplyRuntime.CandidateRefsAre | app/orchestration/apply_runtime.py:956-986 | the version lists what the steps produced, then the gates report, then the impact report, one per URI |
| ApplyRuntime.ApplyRun.WriteTabular | app/orchestration/apply_runtime.py:454-479 | a blocked candidate gets no tabular export |
| ApplyRuntime.ApplyRun.PersistExportManifest | app/orchestration/apply_runtime.py:908-953 | the manifest lists candidate version and tabular export, and is stored once |
| ApplyRuntime.ApplyRun.Decide | app/orchestration/apply_runtime.py:487-523 | a READY package carries manifest, tabular export, card, lineage, version, gates report and impact report, each URI once, a blocked one the manifest; and its counts |
| ApplyRuntime.ApplyRun.Materialise | app/orchestration/apply_assets.py:229-480 | the six asset bodies in order, stopping at the first that raises; in the end all documents are stored, the impact is settled, and each event is that of the final state |
| ApplyRuntime.ApplyRun.BuildFinalApplyOutputs | app/orchestration/apply_runtime.py:326-526 | everything is built from the run's source, candidate and gates report; the package is READY exactly if report and verdict allow the export; a settled impact stays |
| ApplyRuntime.ApplyRun.EnterAgain | app/orchestration/apply_assets.py:229-480 | however often asset bodies are entered again, no step runs again and candidate and gates stay |
| ApplyRuntime.ApplyRun.RunToResult | app/orchestration/apply_workflow.py:219-309 | a whole successful run surfaces as export the URI of the stored package exactly if gates and verdict allow it, as candidate URI and hash of the stored version exactly if validation did not fail, the impact report's URI exactly if there is one, and the synthetic report's URI exactly if the run has a synthetic step, its report exists and the gates do not block the export; the four synthetic statuses and the six assets by name |
| ApplyRuntime.ExportableIffAllowed | app/orchestration/apply_runtime.py:492-523 | of the seven gates four can stop a run that got this far |
| ApplyRuntime.RunnerReportsAllowExportIff | app/plugins/validation/gates.py:343-388 | the condition for the gate runner's own reports; an export is never shown without its candidate |
| ApplyRuntime.PreviewedStepIsSupportedIff | app/orchestration/apply_runtime.py:570-672 | exactly which previewed steps the runtime can run |
| ApplyRuntime.ClassWeightsNeverRun | app/orchestration/apply_runtime.py:570-672 | no plan with a class-weights step ever completes |
| ApplyRuntime.CompletedStepsAreSupported | app/orchestration/apply_runtime.py:664-672 | a plan that ran to its end had supported steps only |
| DecisionPolicy.EvaluateHardGates | app/kernel/decision_policy.py:488-506 | the enabled gates, in order, evaluated on the inputs |
| DecisionPolicy.EachFindingFiresItsGate | app/kernel/decision_policy.py:644-674 | clean inputs fire no gate; each finding alone fires its own gate and no other |
| DecisionPolicy.FindingsAddUp | app/kernel/decision_policy.py:644-674 | a gate fires on several findings exactly if it fires on one of them |
| DecisionPolicy.ObjectGatedIff | app/kernel/decision_policy.py:677-698 | an object is gated exactly if the inputs block the dataset or its own evidence does |
| DecisionPolicy.RecommendedIff | app/kernel/decision_policy.py:509-531 | each recommendation is an enabled rule that matched, and the reverse; missing-value rules never match |
| DecisionPolicy.MatchesIff | app/kernel/decision_policy.py:753-785 | a rule matches exactly if the one signal it reads reaches its threshold; personal data counts in text and scanned documents only, an outlier is low quality |
| DecisionPolicy.RuleCodesIff | app/kernel/decision_policy.py:519-524 | a rule gives its own code, and two label rules their companions |
| DecisionPolicy.RawValueBounds | app/kernel/decision_policy.py:573-587 | the raw object value lies in [-0.50, 0.75] |
| DecisionPolicy.RawValueBoundsAreTight | app/kernel/decision_policy.py:701-733 | both bounds are reached |
| DecisionPolicy.RawValueIsMonotone | app/kernel/decision_policy.py:701-720 | nondecreasing in rarity and business importance, nonincreasing in duplicate and privacy risk |
| DecisionPolicy.LabelIssueMovesValue | app/kernel/decision_policy.py:701-720 | when a higher label-issue signal lowers the value |
| DecisionPolicy.UncertaintyIs | app/kernel/decision_policy.py:723-733 | uncertainty is read from the first available of four signals |
| DecisionPolicy.WorthOfOneSignal | app/kernel/decision_policy.py:701-739 | what each signal alone is worth |
| DecisionPolicy.WorthOfTwoSignals | app/kernel/decision_policy.py:701-720 | what two signals are worth where they compete |
| DecisionReport.CriticalBlockers | app/kernel/decision_report.py:228-263 | one blocker per fired code in first-fired order; its evidence is the first firing's refs as they are, or all firings' refs each once and in order |
| DecisionReport.BlockerIff | app/kernel/decision_report.py:228-281 | a blocker exists exactly if a gate with its code fires on the inputs or for an object, and lists the first three references of the objects it fired for |
| DecisionReport.BlockedIff | app/kernel/decision_report.py:228-263 | blockers exist exactly if an enabled gate fires or some object's evidence blocks it |
| DecisionReport.SwitchedOffGateBlocks | app/kernel/decision_policy.py:677-698 | a switched-off PII gate blocks on an object's privacy risk although nothing fires on the inputs |
| DecisionReport.ObjectBlockedIff | app/kernel/decision_report.py:187-210 | exactly which objects are BLOCK_EXPORT, whatever their value |
| DecisionReport.ObjectActionIs | app/kernel/decision_report.py:187-210 | the action of an object over evidence and enabled rules: blocked if gated, then label review, privacy review, duplicate removal, imputation, augmentation, each exactly if a matching rule asks for it and none before, and kept exactly if none does |
| DecisionReport.ObjectReasonsAre | app/kernel/decision_report.py:172-184 | the reasons of an object are those given by matching rules, fired gates and strong signals, or ready-for-export if there are none |
| DecisionReport.KeyIs | app/kernel/decision_report.py:317-344 | what an object is grouped by: its action, or privacy review if blocked over personal data, its modality, and its reason of highest priority |
| DecisionReport.RecommendationGroups | app/kernel/decision_report.py:284-314 | a partition by action, modality and primary reason; counts add up |
| DecisionReport.InExactlyOneGroup | app/kernel/decision_report.py:284-314 | an object is in a group exactly if it has a recommended action, and then in one |
| DecisionReport.NoActionRequiresApproval | app/kernel/decision_report.py:347-365 | every action of a report stands for at least one object and none requires approval |
| DecisionReport.ItemIs | app/kernel/decision_report.py:298-365 | count, modality and reasons of a recommended action, from the members of its group |
| DecisionReport.BuildDecisionReport | app/kernel/decision_report.py:79-136 | each object gets the action that its evidence and the rules decide, each group an action item with its count and reasons; blockers, evidence, groups, codes, readiness, score, decision and next job agree; safe actions exactly if any action; EXPORT only when ready |
| DecisionReport.ReadyIff | app/kernel/decision_report.py:384-436 | ready exactly if no gate fires and every object is kept |
| DecisionReport.AppendingNeverImproves | app/kernel/decision_report.py:384-413 | more evidence never improves readiness |
| DecisionReport.MoreGatesNeverImprove | app/kernel/decision_report.py:384-413 | more firing gates never improve readiness |
| DataForgeScore.RawScoreBounds | app/kernel/dataforge_score.py:55-75 | the upper clamp never acts; what a perfect score means |
| DataForgeScore.Caps | app/kernel/dataforge_score.py:161-245 | split leakage at most 45, unmasked PII 52, target leakage 64.5, PII and split leakage 0 |
| DataForgeScore.WorseNeverScoresHigher | app/kernel/dataforge_score.py:161-245 | blockers and split leakage never raise the score |
| DataForgeScore.ApplyPenalties | app/kernel/dataforge_score.py:210-229 | the penalties that apply, in order |
| DataForgeScore.BuildDataForgeScore | app/kernel/dataforge_score.py:55-104 | the method computes the score that the lemmas of `ScoreMeaning` are about; ready exactly if not blocked and no penalty applies, blocked exactly if the decision is or lists a blocker |
| ScoreMeaning.CompletenessIs | app/kernel/dataforge_score.py:107-117 | reported completeness is 1 without data, else the share of cells present, rounded; 1 if none is missing, 0 if all are |
| ScoreMeaning.ValidityIs | app/kernel/dataforge_score.py:120-134 | reported validity is the mean of rule pass rate, target presence and share of valid texts, of those there are, or 1 |
| ScoreMeaning.UniquenessIs | app/kernel/dataforge_score.py:137-152 | reported uniqueness is one minus the greater share of duplicates, or 1 |
| ScoreMeaning.BalanceIs | app/kernel/dataforge_score.py:155-158 | reported balance is the measured one brought into 0..1, or 1 |
| ScoreMeaning.PrivacyIs | app/kernel/dataforge_score.py:161-173 | reported privacy safety is 0 under an unmasked-PII blocker, else one minus the share of valid texts with unredacted personal data |
| ScoreMeaning.ReadinessIs | app/kernel/dataforge_score.py:176-191 | exactly when reported model readiness is 0, 0.3 and 1 |
| ScoreMeaning.LineageIs | app/kernel/dataforge_score.py:194-207 | seven times reported lineage is the number of fields filled in |
| ScoreMeaning.AppliesIff | app/kernel/dataforge_score.py:210-269 | exactly when each penalty applies, by the counts |
| ScoreMeaning.PenaltiesAre | app/kernel/dataforge_score.py:210-229 | the penalties listed are those that apply, at their price, in the engine's order |
| ScoreMeaning.ScoreWeighs | app/kernel/dataforge_score.py:22-30 | every component is reported and weighted as published |
| ScoreMeaning.ScoreAddsUp | app/kernel/dataforge_score.py:72-75 | raw score and value are the reported weighted components times a hundred plus the listed penalties, cut at zero and rounded |
| ScoreMeaning.ReasonCodesAre | app/kernel/dataforge_score.py:84-91 | the reasons are the names of the penalties and the codes of the decision |
| ScoreMeaning.GraverNeverScoresHigher | app/kernel/dataforge_score.py:55-269 | with more missing cells, broken rules, duplicates, unredacted texts, imbalance, leakage, lineage gaps or blockers, neither raw score nor value is higher |
| ScoreMeaning.LeakageCanRaiseReadiness | app/kernel/dataforge_score.py:176-191 | a case in which one more leakage candidate raises model readiness |
| DataForgeScore.BuildScoreDiff | app/kernel/version_compare.py:512-580 | one row per component and penalty of either score, with raw score, value and readiness before and after |
| ScoreMeaning.DiffIs | app/kernel/version_compare.py:512-580 | the rows in alphabetical order, each with the values of its own component or penalty on either side, defaults included |
| DataForgeScore.DiffIsConserved | app/kernel/version_compare.py:512-580 | the raw difference is explained by component and penalty differences, up to rounding and the clamp at zero |
| ModelImpact.VerdictIsMonotone | app/kernel/model_impact.py:686-739 | raising metrics never lowers the verdict |
| ModelImpact.DegradedIff | app/kernel/model_impact.py:702-717 | degraded exactly if a metric fell by its threshold, each named |
| ModelImpact.ImprovedIff | app/kernel/model_impact.py:686-739 | rejected exactly under a blocker; improved exactly if recall rose, no other metric fell and none by its threshold |
| ModelImpact.VerdictReasonsAre | app/kernel/model_impact.py:686-739 | the metrics that rose, the fall, or whether anything moved |
| ModelImpact.RecommendedIff | app/kernel/model_impact.py:742-799 | recommended exactly if improved and both cross-checks held |
| ModelImpact.UtilityIs | app/kernel/model_impact.py:742-799 | the synthetic status and its reasons over the measurements, case by case |
| ModelImpact.UtilityIsMonotone | app/kernel/model_impact.py:742-799 | raising metrics never lowers the synthetic status |
| ModelImpact.RecommendedCandidatesPassTheGate | app/kernel/export_package.py:402-439 | the export gate agrees with both classifiers |
| ManifestFraming.BuildJsonlRows | app/ingestion/manifest_builder.py:310-376 | the loop makes the rows and the unsupported entries of the lines |
| ManifestFraming.EveryLineCounts | app/ingestion/manifest_builder.py:320-347 | each non-blank line gives one row or one unsupported entry |
| ManifestFraming.EntryIs | app/ingestion/manifest_builder.py:115-193 | what an entry of each kind contributes: modality and content of its rows, and what is reported as unsupported |
| ManifestFraming.JsonlRowsGrow | app/ingestion/manifest_builder.py:320-376 | rows and reports stand in the order of their lines |
| ManifestFraming.EntriesAppend | app/ingestion/manifest_builder.py:115-193 | rows and reports of the entries follow one another |
| ManifestFraming.LineEndsAre | app/ingestion/manifest_builder.py:483-484 | a line ends at a line feed, a carriage return or both |
| ManifestFraming.BuildAssetManifest | app/ingestion/manifest_builder.py:98-215 | all rows in order, printed and counted by modality |
| ManifestFraming.CountsAddUp | app/ingestion/manifest_builder.py:113-193 | the modality counts add up to the total |
| ManifestFraming.CountOfIs | app/ingestion/manifest_builder.py:113-193 | a modality is counted once for each of its rows |
| ManifestFraming.SerializeSnoc | app/ingestion/manifest_builder.py:471-480 | each row is printed and followed by a line feed |
| ManifestFraming.ReadManifestRows | app/ingestion/manifest_validation.py:301-311 | reading goes line by line and stops at the first bad one |
| ManifestFraming.ValidateManifestJsonl | app/ingestion/manifest_validation.py:111-214 | accepted exactly if not blank and every non-blank line passes; counts are those of the rows |
| ManifestFraming.ReadBackAsOneLineIff | app/ingestion/manifest_validation.py:153-155 | a printed row is read as one line exactly if it has no line break in the wide sense |
| ManifestFraming.RoundTrip | app/ingestion/manifest_builder.py:471-480 | rows written and read back are the same rows |
| ManifestFraming.BuildThenValidate | app/ingestion/manifest_validation.py:145-214 | validation accepts exactly the manifests that have a row and reports the builder's counts |
| Basics.CollectUnique | app/kernel/action_plan.py:534-543 | the loop with a seen set is order-preserving deduplication |
| Basics.OrderedUniqueKeepsOrder | app/kernel/action_plan.py:534-543 | what survives stands in the order of first occurrence |

## Left out

- FastAPI routing, schemas, HMAC and header checks, error envelopes and the in-memory result store: no property beyond one branch.
- Dagster and S3/MinIO internals: materialisation is any number of finished assets and one of three endings; the store is a map.
- sklearn training and metrics, CSV and JSON decoding, SHA-256: functions, collision-free only where a result says so.
- Plugins (imputation, duplicates, SMOTE, split, the gates themselves): functions that may fail.
- Floating-point error: arithmetic is over reals; six-digit rounding is a parameter.
- Report prose, telemetry, lineage envelopes, audit events, demo scripts, method-recommendation tables.
- Step parameters such as seeds and thresholds, and the report ids derived from hashes, are inside the plugin functions.
- A launch that raises before its first check or while building its definitions has no step in `LaunchProtocol`: it is discarded without an event.
- Contract checks of pydantic models beyond those named (non-empty strings, digest patterns) and the exceptions they raise.
- `download_to_seekable`, `list` and `get` of the storage adapter.
- Text.Lower: `str.lower` is exact where its outcome is compared with ASCII text; other characters are left alone.
- ArchiveSafety.ValidateZipStream: entry names are those the zip reader reports; reading the zip directory is not part of this model.
- ApplyRuntime.ApplyRun.ExecuteRemediationPlan: what a second attempt does after a failed one is stated only as far as it succeeds; that it then repeats the first attempt is not claimed, because a SMOTE step leaves its augmented split behind.
- ManifestFraming.RoundTrip: that the JSON encoder writes ASCII only, on one line, and that the row contract accepts what the builder's own rows print is an assumption on the printer and the checker.
- ActionPlan.ApprovalBindsOnePlan: the JSON encoding under the hash is taken to lose nothing.
- ApplyRuntime.ApplyRun.ProposeVersion: identifiers, names, policy versions, time and storage labels of the version are not modelled.
- DecisionReport.CriticalBlockers: message and severity texts are not modelled.
- DecisionReport.RecommendationGroups: identifiers, prose and segment texts of the actions made from the groups are not modelled.
- DecisionReport.BuildDecisionReport: identifiers, versions, time and the list of blocked actions of a gated object are not modelled; a rule without threshold is one with threshold 0.
- DataForgeScore.BuildDataForgeScore: policy version and formula text are constants and left out.
- DataForgeScore.BuildScoreDiff: policy version and formula text are constants and left out.
- ManifestFraming.BuildAssetManifest: saving the manifest and the decoding of entries are not part of this model, nor are their errors.
- ManifestFraming.ValidateManifestJsonl: the input is the decoded text; UTF-8 decoding and the digest of the input are not part of this model.
