# Verified model of the Tritium release tooling

The release of Tritium is produced and qualified by Python scripts under `scripts/`. This project
models the parts of them whose correctness spans many steps, and proves what they promise:

- **Fault injection into a live Deployment** (`Text`, `ScriptFault`, `JsonPatch`, `Deployment`,
  `DeploymentCells`, `DeploymentProofs`, `DeploymentRoundTrip`, `DeploymentRecords`, `FaultRun`,
  `FaultRunTheorems`). The cluster document is a JSON value, patches are RFC 6902 operations, and outside edits may arrive before every request.
- **The metrics flood** (`MetricsFlood`): worker threads, a cyclic barrier that drains between waves,
  three events and a lock, as a state machine over all interleavings.
- **The lock that serialises qualification runs** (`RunLock`): any number of runs, lost replies and
  runs that die.
- **Row collection** (`RowCollector`): nested loops against one fold over the concatenated stream.
- **Tar archives** (`Ustar`, `TarHeaders`, `TarFields`, `TarHeaderRoundTrip`, `TarReaders`,
  `TarTampering`, `ChartReader`, `ChartOrder`, `ChartRoundTrip`, `BundleReader`, `ArchiveBounds`,
  `OciScan`, `ReaderAgreement`): a ustar writer and three readers, byte by byte.
- **The OCI descriptor graph** (`Folds`, `OciGraph`, `OciReach`, `OciInspect`, `OciTheorems`,
  `OciMeaning`, `OciPolicy`): JSON descriptors and blobs, inspected against reachability from `index.json`.
- **Publication of a candidate** (`Publication`): a file tree changed step by step with rollback.
- **SBOM binding** (`SbomRename`, `SbomGraph`, `SbomTheorems`): a tree rewritten while a renaming is
  collected, and a dependency graph that follows it.
- **Smaller cores**: heading anchors (`Slugs`), the static evaluation of `__all__` (`PythonAll`) and
  the rewriting of generated documentation blocks (`ReleaseClaims`).

`dafny verify dfyconfig.toml` checks everything.

## Where the code falls short of what is expected of it

Each of these is shown on a concrete input and delimited by an exact condition.

- The chart packager orders paths by components and the chart reader orders them as whole strings. The
  uncompressed bytes of a packaged chart are refused by its own reader exactly when two paths clash or
  there are more members than the reader allows (`ChartRoundTrip.ClashingChartExample`,
  `ChartOrder.OrdersAgree`, `ChartRoundTrip.PackageRoundTrip`, `ChartRoundTrip.NeighboursDecide`).
- The OCI header scan reads sizes with Python's `int(text, 8)`, which accepts a sign, and a size of -512
  or less takes it back. It runs for ever exactly when it is still going after two turns for each
  block and one more, and only after meeting such a size (`OciScan.EndlessExample`,
  `OciScan.EndlessIffLong`, `OciScan.EndlessMeetsBackward`).
- The evaluation of `__all__` accepts a tuple that is extended later, which Python refuses. The run in
  which nothing is raised or bound by choice ends without an exception, and then with the evaluated
  set, exactly when every extension comes after the assignment of a list
  (`PythonAll.TupleExample`, `PythonAll.EvaluationIsReached`).
- The evaluation of `__all__` looks for the name as an expression only, and not in the expressions of
  except clauses. So `from m import __all__`, a def, class or capture pattern of that name and
  `except E as __all__` pass unseen (`PythonAll.ImportExample`, `PythonAll.HandlerExample`). Every run
  that completes stays within the evaluated bounds exactly when the module cannot escape, which is
  read off its text by following what each statement can do to the binding
  (`PythonAll.SoundIffNoEscape`). Where no except clause touches the name and only lists are extended,
  that is: exactly when nothing after the last module-level assignment binds it, at any depth and in
  any branch (`PythonAll.SoundIffCalm`). The proviso is needed, because an except clause unbinds the
  name again and a later extension then fails (`PythonAll.HandlerExtended`).
- Binding an SBOM checks that new references do not collide with each other, but not with references
  it leaves alone (`SbomTheorems.MergeExample`, `SbomTheorems.MergesNothing`). Components that share a
  local reference are renamed apart unless they share name and version, and the dependencies follow the
  last of them (`SbomTheorems.SharedExample`, `SbomTheorems.OneRenaming`).
- An artifact whose SBOM is generated as `manifest.json` puts a file of that name in place before any
  provenance (`Publication.ClashExample`, and the last clause of `Publication.Candidate.Assemble`).
- `replace_block` ends with an unpacking error, not with its own error, exactly when there is one marker
  of each kind and END comes first (`ReleaseClaims.ReversedMarkersExample`,
  `ReleaseClaims.ReplaceBlockOutcome`).

## Model

| member | source | states |
|---|---|---|
| ScriptFault.CommandsRemovable | scripts/qualify-kubernetes-deployment.py:893-910 | each of the three fault commands, for either profile, has no proper border and starts with neither ';' nor a space |
| ScriptFault.InjectedOnlyAt | scripts/qualify-kubernetes-deployment.py:950-957 | between texts that do not hold the command, the injection and the command occur at the seam and nowhere else |
| ScriptFault.RestoreKeepsForeignEdits | scripts/qualify-kubernetes-deployment.py:987-1022 | removing the injection gives back whatever text now surrounds it, also when that text was edited after the injection |
| ScriptFault.InjectionUndone | scripts/qualify-kubernetes-deployment.py:950-957 | for every script with the marker once and every such command, the faulty script holds the command once and cleanup restores the script |
| ScriptFault.ScriptFaultUndone | scripts/qualify-kubernetes-deployment.py:893-957 | for every baseline script and every scenario, injection succeeds, holds the command once and is undone exactly |
| JsonPatch.PutFrame | scripts/qualify-kubernetes-deployment.py:844-861 | writing one cell of a document changes no cell on a path apart from it |
| DeploymentProofs.CleanupIsGuarded | scripts/qualify-kubernetes-deployment.py:829-880 | whatever document the cleanup patch lands on, and whatever was read before, each cell it changes held the injected value and gets the baseline value, where of a script just the injection is taken out and of an environment just the gate |
| DeploymentProofs.CleanupTouchesOnlyInjected | scripts/qualify-kubernetes-deployment.py:644-689 | after cleanup every other path of the document reads as before |
| DeploymentRoundTrip.FaultTakes | scripts/qualify-kubernetes-deployment.py:1278-1291 | on a baseline document the fault patch applies and leaves a document with exactly the fault |
| DeploymentRoundTrip.CleanupRestores | scripts/qualify-kubernetes-deployment.py:979-1024 | planned on any faulted document and applied to any faulted document, cleanup yields the original uid with the recorded arguments, Secret names, script or environment in their cells |
| DeploymentCells.RestoredMeans | scripts/qualify-kubernetes-deployment.py:866-880 | the last test of a cleanup holds exactly when the object is the recorded one and each recorded cell holds its value: all arguments and no more, both Secret names, the script of the one staging container, or the whole environment; and nothing of the fault |
| DeploymentCells.PlanDecides | scripts/qualify-kubernetes-deployment.py:829-842 | after its first read cleanup leaves the object alone exactly when the fault is not in its cells, writes exactly when it is there once, and raises otherwise |
| DeploymentRecords.ArgumentRecords | scripts/qualify-kubernetes-deployment.py:692-749 | a startup-argument contract is recorded exactly when the two containers are there, and no other, the flag is in the argument cells once with its value after it, and it holds just these cells |
| DeploymentRecords.SecretRecords | scripts/qualify-kubernetes-deployment.py:543-599 | a secret contract is recorded exactly when in both containers the token is the first environment entry and no other, with the same non-empty name and key |
| DeploymentRecords.ScriptRecords | scripts/qualify-kubernetes-deployment.py:913-948 | a script contract is recorded exactly when there is one staging container with this script, and the script is a baseline |
| DeploymentRecords.GateRecords | scripts/qualify-kubernetes-deployment.py:1825-1860 | a device-loss contract is recorded exactly when one container is called tritium and its environment is the token entry, field for field, and nothing else |
| DeploymentRoundTrip.ArgumentRecorded | scripts/qualify-kubernetes-deployment.py:692-749 | the recorded startup-argument contract makes the document it was read from a baseline |
| DeploymentRoundTrip.SecretRecorded | scripts/qualify-kubernetes-deployment.py:543-599 | the recorded secret contract makes the document it was read from a baseline |
| DeploymentRoundTrip.ScriptRecorded | scripts/qualify-kubernetes-deployment.py:913-948 | the recorded startup-script contract makes the document it was read from a baseline |
| DeploymentRoundTrip.GateRecorded | scripts/qualify-kubernetes-deployment.py:1825-1860 | the recorded device-loss contract makes the document it was read from a baseline |
| DeploymentRoundTrip.FaultTouchesOnlyBaseline | scripts/qualify-kubernetes-deployment.py:1470-1490 | a fault patch applies only to the recorded uid and resource version, and changes only cells that held the guarded value |
| FaultRun.SendStory | scripts/qualify-kubernetes-deployment.py:862-868 | whatever outside edit a patch request meets and whether or not its reply is lost, the writes lead from the object before to the object after it, at most one is the tool's, and that one is the allowed patch applied as a whole |
| FaultRun.Cluster.Restore | scripts/qualify-kubernetes-deployment.py:829-880 | in every interleaving cleanup makes at most one guarded write, ends with a document that it has just read and found restored or raises, and which of the two is decided exactly; a lost request leaves the object to outsiders alone |
| FaultRun.Cluster.Qualify | scripts/qualify-kubernetes-deployment.py:1294-1361 | from every failure point after the patch attempt cleanup raises exactly when the situation it starts in is not recoverable, and otherwise the last document read is restored; the run comes through its version test exactly when the fault was found and observed and cleanup ended with a new version of the baseline, after one fault write |
| FaultRunTheorems.ToolWriteIsGuarded | scripts/qualify-kubernetes-deployment.py:844-861 | for every cell but the version and every document a write of the tool meets: the cell is unchanged, or it or a cell above or below it held the guarded value (fault patch) or an injected value (cleanup) |
| FaultRunTheorems.RestoreFault | scripts/qualify-kubernetes-deployment.py:829-880 | cleanup of one of the four faults, in every interleaving: if it returns, every recorded cell held its baseline value in the document that it read last |
| FaultRunTheorems.AdmittedMeans | scripts/qualify-kubernetes-deployment.py:1303-1314 | a run goes on after its fault patch exactly when it reads the same object under another non-empty version with just the fault in its cells |
| FaultRunTheorems.EndsWellMeans | scripts/qualify-kubernetes-deployment.py:1294-1361 | a run that ends well found just its fault, and read the baseline cells back under a third version |
| FaultRunTheorems.QualifyFault | scripts/qualify-kubernetes-deployment.py:1294-1361 | a whole run of one of the four faults, in every interleaving: unless cleanup raises, the document read last has every recorded cell; a run that returns found just its fault under a version of its own |
| FaultRunTheorems.RunChangesAreGuarded | scripts/qualify-kubernetes-deployment.py:829-880 | over a whole run every cell but the version ends as it began, or some write accounts for the change: an outside one, or one of the tool where the tool found its own value |
| FaultRunTheorems.ToolWriteKeepsForeign | scripts/qualify-kubernetes-deployment.py:844-861 | no write of the tool changes a cell apart from all the cells that the fault is about |
| FaultRunTheorems.RunKeepsForeign | scripts/qualify-kubernetes-deployment.py:1863-1917 | over a whole run, a cell outside the tool's targets that outsiders leave alone ends as it began |
| FaultRunTheorems.RecoversUntouched | scripts/qualify-kubernetes-deployment.py:872-880 | when the document is already restored, one answered read is enough for cleanup to return |
| FaultRunTheorems.RecoversFaulted | scripts/qualify-kubernetes-deployment.py:829-880 | when the document carries the fault, cleanup returns although the reply to its patch is lost, provided both reads are answered and outsiders keep the fault in place and the baseline afterwards |
| FaultRunTheorems.UndisturbedRoundTrip | scripts/qualify-kubernetes-deployment.py:1278-1361 | with no outside edits, fault then cleanup gives back every recorded cell, whatever resource versions the cluster assigns |
| FaultRunTheorems.UndisturbedRunReturns | scripts/qualify-kubernetes-deployment.py:1294-1361 | a run on the recorded document, with its requests answered, no outside edits, new versions and the failure observed, comes through its version test |
| MetricsFlood.StepInv | scripts/qualify-kubernetes-deployment.py:3240-3275 | every enabled step of a worker, the generator or the submitter keeps the counts, the barrier and the whole-wave invariant |
| MetricsFlood.FloodSafety | scripts/qualify-kubernetes-deployment.py:3248-3275 | in every state of every run `active` is the number of workers that have counted themselves in and not out, and is at most `peak`, which is at most W; peak is exactly W once anybody is past the barrier or the launch event is set; nobody is past an event that is not set |
| MetricsFlood.PeakIsGreatest | scripts/qualify-kubernetes-deployment.py:3248-3258 | in every run the recorded peak is the greatest number of workers active at once so far, and was reached |
| MetricsFlood.StuckIsFinished | scripts/qualify-kubernetes-deployment.py:3297-3311 | when W divides N, a state with no enabled step is a finished one |
| MetricsFlood.StepUsesSupply | scripts/qualify-kubernetes-deployment.py:3297-3311 | every step uses up a measure, so that every run is finite |
| MetricsFlood.FinishedRun | scripts/qualify-kubernetes-deployment.py:3312-3321 | in a finished state W divides N, nobody is active, every task has passed and the peak is W |
| MetricsFlood.FloodFinishes | scripts/qualify-kubernetes-deployment.py:3240-3321 | runs are bounded in length; when W divides N every maximal run ends with all tasks submitted and taken, the generator done and every worker idle; and a run can finish only when W divides N |
| RunLock.StepKeeps | scripts/qualify-kubernetes-deployment.py:5432-5453 | every step of every run, including lost replies and deaths, keeps that whoever is inside holds the ConfigMap that is there |
| RunLock.MutualExclusion | scripts/qualify-kubernetes-deployment.py:5432-5446 | in every interleaving without outside deletion at most one run is between its create and its delete |
| RunLock.CreateIsExclusive | scripts/qualify-kubernetes-deployment.py:5435-5438 | a create takes a free lock, with the run's id, and otherwise changes nothing and does not get in |
| RunLock.OwnerHolds | scripts/qualify-kubernetes-deployment.py:6070-6079 | whatever others delete and create: a run passes its ownership test only if the ConfigMap that it created is still there, with its id |
| RunLock.WholeRunFrees | scripts/qualify-kubernetes-deployment.py:6108-6117 | a run that goes well takes the free lock, gives its commands under it and leaves it free |
| RunLock.DiscardFrees | scripts/qualify-kubernetes-deployment.py:5440-5446 | a run that finds its ConfigMap malformed deletes it; a delete that does not arrive changes nothing |
| RunLock.HelmInsideLock | scripts/qualify-kubernetes-deployment.py:6068-6123 | every install, upgrade and uninstall was issued by the run that had last taken the lock, before it was freed |
| RunLock.OutsideBreaksExclusion | scripts/qualify-kubernetes-deployment.py:6068-6123 | the assumption is needed: after an outside deletion two runs are inside at once |
| RowCollector.CollectShard | scripts/collect-stage7-sampled-rows.py:436-474 | reading a shard, with its early exit, is the fold over its numbered rows |
| RowCollector.CollectDataset | scripts/collect-stage7-sampled-rows.py:408-491 | the nested loops give the fold over the shortest sufficient prefix of shards, or the ceiling error at the first shard that breaks it, or exhaustion only when the whole stream leaves a partition short |
| RowCollector.OutcomeIsDetermined | scripts/collect-stage7-sampled-rows.py:408-491 | the rows, targets, ceiling and the digests seen before decide everything about the outcome: the kind of failure, the first partition that is short, or the lanes, shards, bytes and digests |
| RowCollector.FoldStops | scripts/collect-stage7-sampled-rows.py:425-430 | once all targets are met further rows change nothing |
| RowCollector.FoldLanes | scripts/collect-stage7-sampled-rows.py:439-473 | each partition's byte count is the sum over its rows, its row indices increase strictly, its rows are those of the stream, and without its last row a target would be missed |
| RowCollector.FoldWinners | scripts/collect-stage7-sampled-rows.py:454-459 | every selected row went to the partition with the least score among those that were short of bytes or rows when it came, the first of them in the order of the partitions where scores tie |
| RowCollector.FoldLedger | scripts/collect-stage7-sampled-rows.py:452-472 | the digests seen grow by exactly the chosen ones, none chosen twice or seen before |
| RowCollector.CollectedIsWhole | scripts/collect-stage7-sampled-rows.py:424-476 | a successful collection equals the fold over the stream of all shards |
| RowCollector.ShardingIndependent | scripts/collect-stage7-sampled-rows.py:419-476 | two ways of splitting the same rows into shards that both succeed give every partition the same row indices, texts and digests |
| RowCollector.StreamPlace | scripts/collect-stage7-sampled-rows.py:450-451 | a row's index is the number of rows in earlier shards plus its index in its shard |
| RowCollector.CollectedGuarantees | scripts/collect-stage7-sampled-rows.py:424-491 | on success the rows of every partition add up to both targets without overshoot, every chosen row is where it says it is, and each went to the partition that its score demands |
| RowCollector.ExhaustedMeans | scripts/collect-stage7-sampled-rows.py:477-490 | when a dataset is exhausted, all shards were read within the ceiling, the partition that is named misses a target over the whole stream, and every partition before it meets both |
| RowCollector.FailedAtMeans | scripts/collect-stage7-sampled-rows.py:424-435 | when a dataset fails at a shard, the shards before it are well-formed and within the ceiling and leave a partition short; the shard is malformed, or goes beyond the ceiling |
| RowCollector.WithinBudget | scripts/collect-stage7-sampled-rows.py:431-435 | a successful collection stays within the bytes it was given |
| RowCollector.CollectSampledRows | scripts/collect-stage7-sampled-rows.py:527-543 | the datasets are collected in turn, each against what the earlier ones saw and left of the ceiling; a failing run has no positive ceiling, or has collected the first datasets and ends with an outcome of the next one that is not a collection |
| RowCollector.NoLeakage | scripts/collect-stage7-sampled-rows.py:452-472 | no digest occurs at two places across any datasets and partitions |
| RowCollector.NoTextTwice | scripts/collect-stage7-sampled-rows.py:448-472 | nor does any text, under one digest for all datasets |
| Ustar.ValueOfOctal | scripts/package-helm-chart.py:164-177 | the octal field of a number reads back as the number |
| Ustar.WriteArchive | scripts/package-helm-chart.py:164-177 | appending member by member gives the ustar archive of the files |
| TarHeaders.NumberReads | scripts/generate-bundle-sbom.py:268-276 | a written number field, with its blanks, is read as the number |
| TarHeaders.TextReads | scripts/generate-bundle-sbom.py:277-286 | a written text field, with its zeros, is read as the text |
| TarFields.ChartHeaderMeans | scripts/generate-deployment-sbom.py:76-105 | the chart reader accepts a header as this name and size exactly when each field of its 512 bytes is so: octal digits between blanks for the sum of all bytes, mode 0644, zero owners and time, the size, a text with zeros after it for the name, the magic, and zeros everywhere else |
| TarFields.BundleHeaderMeans | scripts/generate-bundle-sbom.py:293-326 | the same for the bundle reader, with any owner, time and permissions up to 07777 and a bare name |
| TarTampering.HeaderTampered | scripts/generate-deployment-sbom.py:76-83 | when one byte of an accepted header is changed, outside the checksum field, neither reader accepts it |
| TarTampering.Tampered | scripts/generate-bundle-sbom.py:338-390 | when any one byte of an archive is changed, outside payloads and checksum fields, a reader that checks its headers refuses the archive |
| TarTampering.ChartTampered | scripts/generate-deployment-sbom.py:108-163 | so does the chart reader with any archive that it accepted |
| TarTampering.PackageTampered | scripts/package-helm-chart.py:164-177 | and with any archive of the packager |
| TarTampering.BundleTampered | scripts/generate-bundle-sbom.py:338-390 | and the bundle reader with any archive that it accepted |
| TarTampering.PayloadChanged | scripts/generate-bundle-sbom.py:370-385 | a changed payload byte changes that byte of one member, and nothing else of what is read |
| TarHeaderRoundTrip.HeaderRoundTrip | scripts/generate-deployment-sbom.py:76-105 | every header the writer makes, checksum included, is accepted and read as its name and size |
| TarReaders.ParseIffAccounted | scripts/generate-bundle-sbom.py:338-390 | an archive is read as the members exactly when it is their headers, payloads and zero padding and then at least 1024 zero bytes in whole blocks: every byte is accounted for |
| TarReaders.AccountedWhole | scripts/generate-bundle-sbom.py:348-358 | an archive that is accounted for is a whole number of blocks |
| TarReaders.PaddingForms | scripts/oci-archive.py:200-202 | the two ways of rounding a size up to blocks agree |
| ChartReader.Inventory | scripts/generate-deployment-sbom.py:108-163 | the seeking loop accepts exactly the archives that parse into strictly sorted, portably distinct, bounded members with the required files |
| ArchiveBounds.ChartAccepts | scripts/generate-deployment-sbom.py:108-163 | a chart archive is accepted exactly when it parses into at most 10000 members of together at most 268435456 bytes, each name after the last at the first byte that differs, no two of them the same when folded, with the two required files and one under the templates |
| ChartOrder.OrdersAgree | scripts/package-helm-chart.py:108-108 | component order and string order agree on two paths exactly when they do not clash |
| ChartRoundTrip.SourceFiles | scripts/package-helm-chart.py:102-160 | the packager's pass returns the files in order exactly when every entry is packable and the chart is complete and within bounds |
| ChartRoundTrip.ArchiveParses | scripts/package-helm-chart.py:164-177 | the written archive parses into the same names and contents in order |
| ChartRoundTrip.SortedIffClashFree | scripts/generate-deployment-sbom.py:125-126 | the packager's order is strictly sorted for the reader exactly when no two neighbouring paths clash |
| ChartRoundTrip.NeighboursDecide | scripts/package-helm-chart.py:108-108 | no two neighbours clash exactly when no two paths at all do |
| ChartRoundTrip.PackageRoundTrip | scripts/generate-deployment-sbom.py:108-163 | the reader returns what the packager packed exactly when no two neighbouring paths clash and there are at most 10000 members, and refuses it otherwise |
| ChartRoundTrip.ClashExample | scripts/package-helm-chart.py:108-108 | a/b and a-b: sorted for the packager, not for the reader |
| ChartRoundTrip.ClashingChartExample | scripts/generate-deployment-sbom.py:125-126 | a complete chart with templates/b and templates-b, and any content of Chart.yaml within the limit, is packable, in order and within bounds, and is refused by the reader |
| BundleReader.Stream.ReadExact | scripts/generate-bundle-sbom.py:328-335 | over a stream that may return short reads, exactly the asked bytes or a truncation error |
| BundleReader.Stream.DrainZeros | scripts/generate-bundle-sbom.py:351-355 | draining in chunks tells whether the rest is all zero and how long it is |
| BundleReader.Stream.Next | scripts/generate-bundle-sbom.py:347-376 | one turn of the loop says what the archive says at this position: the end, a member, or an error |
| BundleReader.InventoryStream | scripts/generate-bundle-sbom.py:338-390 | the streaming loop accepts exactly the archives that parse into non-empty, portably distinct, bounded members |
| ArchiveBounds.BundleAccepts | scripts/generate-bundle-sbom.py:338-390 | a bundle is accepted exactly when it parses into one to 200000 members, no two names the same when folded, each of at most 2^38 bytes, a manifest of at most 2^22, all of them of at most 2^40 |
| OciScan.ScanSizeAgrees | scripts/oci-archive.py:192-199 | where the strict readers read a size, the scan reads the same one |
| OciScan.ScanFollowsReader | scripts/oci-archive.py:166-203 | on every archive a strict reader parses, the scan stops at exactly the member headers and then accepts |
| ReaderAgreement.BundleIsScanned | scripts/generate-bundle-sbom.py:338-390 | every archive accepted by the streaming bundle reader is accepted by the scan, which visits the same header offsets |
| OciScan.ScanTransportHeaders | scripts/oci-archive.py:166-203 | the loop's verdict: accepted, rejected, or running for ever |
| OciScan.EndlessIffLong | scripts/oci-archive.py:166-203 | the scan runs for ever exactly when it is still going after two turns for each block of the archive and one more |
| OciScan.ScanEnds | scripts/oci-archive.py:192-203 | when no header that the scan comes to states a size of -512 or less it ends within one turn per block |
| OciScan.EndlessMeetsBackward | scripts/oci-archive.py:192-203 | a scan that runs for ever comes to a header with a size of -512 or less |
| OciScan.EndlessExample | scripts/oci-archive.py:192-203 | every one-block archive with the size -1000 (octal) is scanned for ever |
| Folds.Gather | scripts/oci-archive.py:518-564 | items are checked one by one, their names gathered and a second item of one kind refused: success exactly when all are good and no kind repeats |
| Folds.GatherAll | scripts/oci-archive.py:496-564 | the same over nested items, leaving out one position |
| OciReach.ReachableIsAll | scripts/oci-archive.py:433-517 | what a walk of any length along descriptors can reach is what two steps, or three through a wrapping index, reach |
| OciInspect.FindImages | scripts/oci-archive.py:451-460 | the search finds one position exactly when one descriptor is the image |
| OciInspect.Inspect | scripts/oci-archive.py:414-580 | the checks, in the order of the code, succeed exactly when all of them hold |
| OciTheorems.InspectedIffAdmissible | scripts/oci-archive.py:414-580 | the checks hold exactly when the layout has one image, every reachable descriptor is proper for its role, each predicate type is carried once and the blobs are exactly the reachable ones |
| OciTheorems.AdmissibleGuarantees | scripts/oci-archive.py:419-428 | in an accepted layout every blob is named by a reachable descriptor with its size, and the attestation manifests have together exactly as many layers as there are predicate types |
| OciMeaning.AdmissibleMeans | scripts/oci-archive.py:414-580 | a layout is admissible exactly when its fields say so: the descriptors of the index or of the one index it wraps, one of them the image with its manifest, configuration and layers, each other one bound to the image by its two annotations and leading to statements about it, and the blobs exactly those that are named |
| OciMeaning.ImageMeans | scripts/oci-archive.py:451-475 | one descriptor of an accepted layout, and no other, is an image of the platform, and its manifest, configuration and layers are there |
| OciMeaning.AttestationMeans | scripts/oci-archive.py:496-558 | every other descriptor is bound to the image by its two annotations and leads to a manifest with at least one layer, all of them statements about the image |
| OciMeaning.KindsCarried | scripts/oci-archive.py:566-569 | every demanded predicate type is carried by a layer of an attestation |
| OciTheorems.InspectGraph | scripts/oci-archive.py:414-580 | the inspection accepts exactly the admissible layouts, for every policy |
| OciPolicy.TwoAttestationLayers | scripts/oci-archive.py:518-568 | the attestation manifests of an accepted release have exactly two layers together |
| OciPolicy.InspectRelease | scripts/oci-archive.py:451-507 | the same for the policy of a release: platform, labels, user, entry point, SPDX and SLSA; in an accepted release every descriptor but the image has the reference type "attestation-manifest" and the digest of the image as reference |
| OciPolicy.ReleaseIndex | scripts/oci-archive.py:433-450 | the descriptors of an accepted release are those of its index or of the one index that it names |
| OciPolicy.ReleaseImage | scripts/oci-archive.py:451-490 | its image is a linux/amd64 manifest whose configuration carries the release, its revision and the two schemas, does not run as root and starts the server |
| OciPolicy.ReleaseAttestation | scripts/oci-archive.py:501-507 | its other descriptors name the image by digest, under the two reference keys |
| OciPolicy.ReleaseStatement | scripts/oci-archive.py:518-561 | each layer of an attestation is an in-toto statement about the image, of the type that it is annotated with, and either SPDX or SLSA |
| Publication.ProvenanceDistinct | scripts/assemble-release-candidate.py:149-154 | unique artifact ids give provenance files that never collide |
| Publication.Candidate.WriteFsynced | scripts/assemble-release-candidate.py:70-81 | the file is created whole or not at all, and a failure leaves the tree as it was |
| Publication.Candidate.WriteSbom | scripts/generate-bundle-sbom.py:695-723 | an SBOM is published only at a free, contained path, and removed again on failure |
| Publication.Candidate.CollectSboms | scripts/assemble-release-candidate.py:178-302 | after the SBOM phase every artifact and SBOM is there, each one written with the content of an artifact that generates it; otherwise the tree is as before, and after an interrupt it has grown by exactly the SBOMs written |
| Publication.Candidate.Publish | scripts/assemble-release-candidate.py:310-332 | provenance and manifest are all there with their contents, or the tree is as before unless an interrupt came; the manifest is in no tree of the history without the provenance |
| Publication.Candidate.Assemble | scripts/assemble-release-candidate.py:162-332 | for every pattern of failures: after an exception the tree is as before; an interrupt leaves a tree of the history, sound if no SBOM is generated as manifest.json; on success exactly the named files were added, each SBOM and provenance with the content of its artifact; a run without failures succeeds on a possible input; the history of trees, each one change after the last, is sound throughout if no SBOM is generated as manifest.json, and on a collectable input without failures only if |
| Publication.ClashExample | scripts/assemble-release-candidate.py:178-219 | an input on which an SBOM stands as a manifest without provenance |
| SbomRename.Normalize | scripts/generate-crate-sboms.py:128-155 | the recursive rewrite accepts exactly well-formed trees, gives every component its own new reference and package URL, and collects the renaming in visiting order |
| SbomGraph.MoveAll | scripts/generate-crate-sboms.py:162-179 | every dependency has one renaming applied to both ends, and the root's are counted |
| SbomGraph.ValuesCount | scripts/generate-crate-sboms.py:160-161 | comparing the number of values with the number of keys decides whether the renaming is one-to-one |
| SbomGraph.BindSbom | scripts/generate-crate-sboms.py:104-196 | binding succeeds exactly on the documents that satisfy the conditions, with the rewritten document as result |
| SbomGraph.NotedMeans | scripts/generate-crate-sboms.py:128-146 | the renaming concerns exactly the root and the local references, each sent to the name of the last component that bears it |
| SbomTheorems.OneRenaming | scripts/generate-crate-sboms.py:126-175 | components follow the renaming that dependencies follow exactly when components that share a local reference share name and version |
| SbomTheorems.ComponentsFollow | scripts/generate-crate-sboms.py:128-159 | the component tree keeps its shape, and in visiting order each component bears the reference that the dependencies use for it |
| SbomTheorems.ComponentsBound | scripts/generate-crate-sboms.py:128-147 | whatever the document, each component ends with the reference that its own fields give: the artifact for the root, a name made of name, version and digest for a local one, the same for any other; and a local package URL becomes that of its name and version |
| SbomTheorems.AcceptedMeans | scripts/generate-crate-sboms.py:104-196 | in an accepted document the root is the crate, all components have references, the local ones names and versions, exactly one dependency entry is the root's, and no text of the result names a local path |
| SbomTheorems.MergesNothing | scripts/generate-crate-sboms.py:160-161 | no two references are merged exactly when no reference that is left alone equals a new name |
| SbomTheorems.BindingIsIsomorphism | scripts/generate-crate-sboms.py:126-179 | on accepted documents the root becomes the artifact, references stay apart, and two references have an edge exactly when their images have one |
| SbomTheorems.LocalEndsAreComponents | scripts/generate-crate-sboms.py:194-196 | in an accepted document every local reference in an edge belonged to a component, and no local path is left of it |
| SbomTheorems.MergeExample | scripts/generate-crate-sboms.py:160-161 | an accepted document after which two components share one reference |
| SbomTheorems.SharedExample | scripts/generate-crate-sboms.py:128-175 | an accepted document in which two components share a local reference, end with different ones, and the root depends on the second only |
| Slugs.DecimalInjective | scripts/check-community-contract.py:148-148 | different suffixes give different names |
| Slugs.DecimalMeans | scripts/check-community-contract.py:148-148 | a suffix is the decimal numeral of its number, without leading zeros |
| Slugs.FirstFree | scripts/check-community-contract.py:146-148 | the plain search ends at the first name that is not used |
| Slugs.Page.AddHeading | scripts/check-community-contract.py:136-151 | the cached search ends and gives a heading the name that the plain search gives it, and remembers its suffix and nothing else |
| Slugs.GithubAnchors | scripts/check-community-contract.py:131-166 | over a whole page the anchors are those of the plain search |
| Slugs.AnchorsCount | scripts/check-community-contract.py:131-166 | there are as many anchors as ids and headings with a slug |
| PythonAll.Apply | scripts/generate-api-diff.py:98-140 | the loop over statements, recursing into try bodies, computes the evaluation or refuses |
| PythonAll.GuardedBlock | scripts/generate-api-diff.py:128-137 | however the body of a try statement ends, that end is among those read off the text, and a value that was not bound otherwise stays between what it was and what the evaluation adds up |
| PythonAll.EvaluationIsSound | scripts/generate-api-diff.py:93-145 | every run, that completes, of an accepted module that cannot escape ends between what the module level surely exports and the evaluated set, with exactly that set when no exception was raised |
| PythonAll.SoundIffNoEscape | scripts/generate-api-diff.py:93-145 | for every accepted module: all runs that complete are within these bounds exactly when it cannot escape |
| PythonAll.SoundIffCalm | scripts/generate-api-diff.py:101-104 | they are when nothing after the last module-level assignment can bind the name at any depth and in any branch, and only then where no except clause itself touches the name and only lists are extended |
| PythonAll.EvaluationIsReached | scripts/generate-api-diff.py:93-145 | the undisturbed run ends without an exception, and then with the evaluated set, exactly when every extension, at any depth, comes after the assignment of a list; where nothing can bind the name no other run without exceptions exists otherwise |
| PythonAll.TupleExample | scripts/generate-api-diff.py:82-90 | a tuple that a try statement extends: the evaluation adds the name, and every run that completes is without it |
| PythonAll.ImportExample | scripts/generate-api-diff.py:101-104 | a module that imports the name after its assignment is accepted, and a run of it can end with any value at all |
| PythonAll.HandlerExample | scripts/generate-api-diff.py:128-137 | a module with `except E as __all__` is accepted, and a run of it ends without any value |
| PythonAll.ClauseExample | scripts/generate-api-diff.py:128-137 | a module whose except clause evaluates the name in any other way is accepted, and a run of it can end with any value |
| PythonAll.HandlerExtended | scripts/generate-api-diff.py:128-137 | when that module goes on to extend the value, every run that completes ends with the evaluated set |
| ReleaseClaims.ReplaceBlockOutcome | scripts/generate-release-claims.py:77-86 | which of the three outcomes occurs, by the number and order of the markers, and that success replaces exactly the block and keeps the text around it |
| ReleaseClaims.ReversedMarkersExample | scripts/generate-release-claims.py:77-86 | END followed by BEGIN ends in the unpacking error |
| ReleaseClaims.SeamsHoldNoMarker | scripts/generate-release-claims.py:77-86 | no marker straddles a seam between the kept text and the block |
| ReleaseClaims.PlainBlockRendered | scripts/generate-release-claims.py:34-74 | a block between its markers whose body holds no '<' is a proper block |
| ReleaseClaims.RewriteIsStable | scripts/generate-release-claims.py:77-86 | the result has one of each marker, rewriting it again changes nothing, and a later block replaces it as it would have replaced the first |
| ReleaseClaims.GeneratedDocuments | scripts/generate-release-claims.py:89-99 | the loop yields every document rewritten, or an error exactly when one cannot be |
| ReleaseClaims.Check | scripts/generate-release-claims.py:115-122 | the check passes exactly when every document and the page are up to date |
| ReleaseClaims.Write | scripts/generate-release-claims.py:124-128 | after writing, the check passes, and no other file has changed |

## Left out

- Timeouts and wall-clock deadlines of the flood and of cluster requests: waiting is unbounded in the model.
- The memory-limit and artifact-volume patches of the qualification script, which carry no guards.
- Observation of failed pods, logs and metrics: whether a failure was observed is a parameter of a run.
- JSON pointers are lists of typed steps, not text with escapes; JSON numbers are integers.
- SHA-256, BLAKE3, case folding, UTF-8 validity, percent-encoding and the partition score are parameters, and so are the SPDX and SLSA field checks.
- Decoding of source rows (Parquet, compressed JSON) and the download and verification of shards.
- gzip and zstd around the archives; the model starts at the uncompressed bytes.
- ChartRoundTrip.SourceFiles: symbolic links, files that change while they are read and the content of Chart.yaml are not modelled.
- ChartReader.Inventory: the content of Chart.yaml is not examined.
- BundleReader.InventoryStream: the final sort of the records and the digests of members are not modelled.
- OciInspect.Inspect: starts from the blobs that were read, keyed by digest; reading them from the tar, the retention bound and the layout version file are not modelled.
- Folds.Gather: the two loops of the inspection are written over any type of item, and take their checks as functions.
- Publication.Candidate.Assemble: digests, the casefold test on artifact paths, the sort by id, symbolic links, the temporary file of an SBOM and fsync durability are not modelled; cleanup steps are taken to succeed, and interrupts come in place of an operation, not inside a rollback.
- SbomGraph.BindSbom: the hashes and properties that are added to the root are not modelled, and the final search for local paths covers references, names, versions, package URLs and edges.
- Slugs.GithubAnchors: fenced blocks, the recognition of headings and ids, and the making of a slug from a heading are inputs.
- PythonAll.SoundIffNoEscape: which statements can bind `__all__` unseen is an input, and what they bind it to is chosen by the run; a call that changes the module through `globals()` counts as such a statement.
- RunLock.MutualExclusion: all runs use the same name for the ConfigMap, that is, the same context, namespace and release.
- The validators of receipts, dashboards, notebooks, compatibility reports and statistics scripts: long conjunctions without a hard property.
