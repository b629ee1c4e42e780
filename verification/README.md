# Verification of the PostgreSQL container scripts

This project models, in Dafny, the programs of the CYBERTEC PostgreSQL container that carry
state or an algorithm, and proves what they promise:

* **The in-place major upgrade** (`Protocol`, `World`, `FileSystem`, `PgUpgrade`, `InplaceUpgrade`,
  `RsyncReplica`, `MaybePgUpgrade`, `ServerParameters`, `Statistics`, with `ProtocolTheorems` and
  `EndToEnd`). The objects of the source are classes whose methods follow it branch by branch. Every
  call into Patroni, PostgreSQL, rsync or the DCS may fail, raise or answer anything; each records an
  event, and other writers may change the DCS before any access. A monitor folds the trace of events
  into what is known; `Allowed` says which event may come next. The methods are proved to produce only
  legal traces, and the theorems say, in terms of events alone, what a legal trace promises. Directories
  are a map from path to image, changed only by steps that may stop half way; each step is logged, and
  a run is proved to keep the data at every entry of the log.
* **The merge of pgBouncer parameters** (`PgbouncerMerge`, `PgbouncerTheorems`): the awk program as a
  line transducer, which refines a map override and is idempotent line for line, exactly when the names allow it.
* **Cloning from the WAL archive** (`WalPrefix`, `CloneWithWale`): how the archive path is crafted, patched
  and searched by three files, and which backup a clone takes.
* **WAL segment names** (`Segments`), **backup retention** (`BackupRetention`), the **configuration merge** on
  dicts in memory (`DeepUpdate`) and on dicts shared by aliases (`SharedDicts`), the **extension lists**
  (`SpiloCommons`), and the **printers of connection strings and password files** against the grammars of their
  readers (`Conninfo`, `Pgpass`).

`dafny verify dfyconfig.toml` checks the whole project.

How failures appear: a Python exception is `Raised`, and `:-` passes it on as an uncaught exception does.
`Fault` says which events are failures of the environment or changes made by others, and `faulty` is kept to be
"some event of the trace was one"; on the file system it says that an operation has failed. A loop gives up only after
a poll that did not show what it waits for. So "not True only if faulty" means that the script never fails by itself.

Where code and promise differ, the code is modelled and the exact condition is proved:

* rsync works on `data_old` too, so a failed one is undone exactly when it left that directory whole, and a replica has a
  complete copy throughout exactly when rsync always left one (`RollsBackIffWhole`, `RsyncReplica`, `FailedRsyncLosesData`);
* `vacuumdb` is called outside the guards of `analyze`: when its list of databases raises, no statistics target that was
  reset comes back, and one unreachable database stops the restore of those after it (`AllReturnIff`, `VacuumLosesTargets`);
* an `ALTER TABLE` without `ONLY` sets the target of partitions and heirs as well, and only saved columns are restored
  (`AllReturnIff`, `PartitionTakesTarget`, `PartitionLosesTarget`);
* defaults merged into a dict appear wherever an alias repeats it, under a key or in a list (`MergesIffTree`,
  `AliasedDict`, `AliasedItem`);
* another writer's pause is lifted as our own exactly when it came between our pause and our resume (`LiftedPauseIsOwn`,
  `ForeignPauseCanBeLifted`);
* a list with a repeated unknown extension makes `adjust_extensions` raise (`AdjustExtensions`);
* a recovery of a cluster without `shared_preload_libraries` cannot be upgraded, and a list that has nothing left for a
  version newer than the table leaves the old libraries in place (`RecoveryRestoresParameters`, `OldLibraryStays`);
* extending extension lists in two steps from a version older than the table adds an empty name
  (`UpgradeStringsInSteps`, `StepsAddEmptyName`);
* a parameter whose name is no word is written to pgbouncer.ini again by every run (`IdempotentIffIdents`), and one that
  prints as a setting sets another key (`OverrideIffOrderly`, `MisreadName`);
* a WAL path crafted without a version is never patched to the right one (`PatchWithoutVersion`);
* the very first WAL segment has no predecessor name (`BeforeIsPredecessor`);
* an empty value swallows the next one in a connection string (`ConnectionRoundTrip`), and the port of the
  password file is not escaped (`LineRoundTrip`, `FileRoundTrip`).

## Model

| member | source | states |
|---|---|---|
| `InplaceUpgrades.InplaceUpgrade.TryUpgrade` | major_upgrade/inplace_upgrade.py:676-681 | Whatever fails and wherever: the run produced only a legal trace, every directory step kept the data, True means everybody followed, every step to the end was made and the directories are those of a finished upgrade, anything else means an event of the trace is a fault, a file operation failed or the cluster was unfit. A pause found set is left alone: nothing is written. With no other writer a cluster that was not paused ends paused only if the answer to our pause was lost or the very last event is a failure to reach the DCS |
| `InplaceUpgrades.InplaceUpgrade.DoUpgrade` | major_upgrade/inplace_upgrade.py:494-664 | The same for do_upgrade alone: nothing happens when no upgrade is required; once complete, the result is True exactly when every replica ran CHECKPOINT and reported a successful rsync |
| `InplaceUpgrades.InplaceUpgrade.CheckAndUpgrade` | major_upgrade/inplace_upgrade.py:505-531 | After the first reading: a cluster found paused is not upgraded, its config not written, the pause not claimed and rsyncd not started; True means done with unchanged parameters, and anything else that a call failed or the cluster was unfit |
| `InplaceUpgrades.InplaceUpgrade.PostCleanup` | major_upgrade/inplace_upgrade.py:666-674 | rsyncd and its configs are only left when a call failed, our pause only when the last event shows why it could not be lifted; without a pause or rsyncd of our own nothing happens |
| `EndToEnd.EveryReplicaFollowed` | major_upgrade/inplace_upgrade.py:505-659 | End-to-end soundness of a finished run in which all followed: each other member of the first reading streamed with at most 16 MiB of lag, was healthy and in recovery, and the incompatible extensions were dropped, all before the check began; then, in this order: check passed, objects dropped, our pause, its acknowledgement, the stop, the control data, the replay of that checkpoint, the real pg_upgrade with the right binaries, its success, the switch, the updated configs, the order to rsync to the desired version from our host (after its own CHECKPOINT), the report of success, the restart of Patroni and of the server, the update of extensions, analyze, reanalyze and call_post_bootstrap |
| `ProtocolTheorems.FitBeforeCheck` | major_upgrade/inplace_upgrade.py:178-230 | pg_upgrade --check only begins when each other member of the first reading was seen streaming with little lag, healthy and in recovery |
| `ProtocolTheorems.ExitAfterStart` | major_upgrade/pg_upgrade.py:177-204 | A pg_upgrade run that ended has begun |
| `EndToEnd.RightBinaries` | major_upgrade/pg_upgrade.py:48-52 | Every pg_upgrade run of a legal trace, check or real, has the binaries of the old cluster and those of the new version, whichever way the object toggled them before |
| `ProtocolTheorems.EndsPausedIff` | major_upgrade/inplace_upgrade.py:143-176 | With no other writer a cluster that was not paused ends paused exactly when a pause was written and no resume |
| `ProtocolTheorems.EndsUnpaused` | major_upgrade/inplace_upgrade.py:666-681 | And then the answer to our pause was lost, or the last event is a reading or a write that did not reach the DCS; the hypothesis is what TryUpgrade ensures, which ensures this in turn |
| `ProtocolTheorems.LostAnswerLeavesPause` | major_upgrade/inplace_upgrade.py:146-155 | That a lost answer can happen: the events of a single-member primary up to a pause that is applied but not answered end with the cluster paused and the pause not owned |
| `ProtocolTheorems.RealUpgradeInOrder` | major_upgrade/inplace_upgrade.py:524-571 | In every legal run of a primary the real pg_upgrade has the right two binaries and comes after the passed check, the dropping of objects, our acknowledged pause, a reading in which the members report it, and the clean stop, in that order |
| `ProtocolTheorems.StopsInOrder` | major_upgrade/inplace_upgrade.py:524-535 | The server is only stopped after the check, the dropping of objects, the pause and its acknowledgement by every member that had an API when we paused and still is a member |
| `ProtocolTheorems.ReplicaReadyBeforeUpgrade` | major_upgrade/inplace_upgrade.py:537-571 | Before the real pg_upgrade every replica of the first reading replayed the checkpoint that the control data of the stopped server gave as 'shut down', and rsyncd was started and found alive |
| `ProtocolTheorems.RsyncInOrder` | major_upgrade/inplace_upgrade.py:342-397 | A replica whose rsync succeeded was told to start it, with the desired version and the host of the primary, only after it caught up, ran CHECKPOINT, pg_upgrade succeeded, the directories were switched and the configs updated |
| `ProtocolTheorems.EndInOrder` | major_upgrade/inplace_upgrade.py:604-656 | Patroni restarts, then the server, the extensions are updated, then analyze, reanalyze and call_post_bootstrap, and no feedback of a replica comes after the restart |
| `ProtocolTheorems.PauseAfterCheck` | major_upgrade/inplace_upgrade.py:524-531 | A pause is only written over an unpaused config, for the first time, and after the check passed and the objects were dropped |
| `ProtocolTheorems.WritesOnlyPause` | major_upgrade/inplace_upgrade.py:146-152 | Every write flips the pause and preserves all other keys of the config it replaces |
| `ProtocolTheorems.PausesOnce` | major_upgrade/inplace_upgrade.py:143-168 | A run writes pause at most once |
| `ProtocolTheorems.ResumesOwnPause` | major_upgrade/inplace_upgrade.py:170-176 | A run resumes only after its own acknowledged pause, and without other writers exactly the config it wrote |
| `ProtocolTheorems.NoPauseNoWrite` | major_upgrade/inplace_upgrade.py:143-176 | A run has written nothing exactly when it has counted no pause of its own; with CheckAndUpgrade, a pause found set stays |
| `ProtocolTheorems.OtherKeysUntouched` | major_upgrade/inplace_upgrade.py:146-152 | With any other writers, on every key but pause the config ends as if the run had never written |
| `ProtocolTheorems.PausedIffOwned` | major_upgrade/inplace_upgrade.py:170-176 | With no other writer and no lost answer the cluster is paused exactly while the run owns the pause |
| `ProtocolTheorems.StuckPauseExplained` | major_upgrade/inplace_upgrade.py:143-176 | With no other writer a cluster left paused is owned by the run, or a write of ours was applied and its answer lost |
| `ProtocolTheorems.LiftedPauseIsOwn` | major_upgrade/inplace_upgrade.py:143-176 | The pause a resume lifts is the one the run wrote exactly when no other writer came in between, equivalently when the version is the one our write made |
| `ProtocolTheorems.LiftsWhatItFinds` | major_upgrade/inplace_upgrade.py:143-176 | A run that paused and no longer owns the pause has lifted whatever pause it found, its own exactly when no other writer came in between |
| `ProtocolTheorems.ForeignPauseCanBeLifted` | major_upgrade/inplace_upgrade.py:143-176 | The limit of ownership, by the events that do_upgrade and post_cleanup record on a single-member primary whose stop fails: a config that another writer put in place with its own pause has that pause lifted |
| `ProtocolTheorems.PauseCanBeOwned` | major_upgrade/inplace_upgrade.py:501-531 | What a single-member primary records up to its pause (role, reading, replication query, initdb, check and the steps around them, the reading of toggle_pause, its write, the acknowledging reading) is legal and owns the pause |
| `FileSystems.NoDataLoss` | major_upgrade/pg_upgrade.py:146-175 | A run whose every step keeps the data has, wherever it is cut off, a complete copy of the cluster under data, data_old or data_new |
| `FileSystems.OldDirOutlivesUse` | major_upgrade/pg_upgrade.py:155-159 | A complete data_old only goes while data is complete and stays, or by becoming data again |
| `FileSystems.RollbackRestoresData` | major_upgrade/pg_upgrade.py:161-175 | Switching, then any writes to data or none, then switching back restores the live directory and touches nothing but data_old and data_new |
| `FileSystems.SwitchBackIsInverse` | major_upgrade/pg_upgrade.py:161-175 | With a prepared data_new the two switches are inverse, but for an earlier data_old |
| `InplaceUpgrades.InplaceUpgrade.TogglePause` | major_upgrade/inplace_upgrade.py:143-168 | Refuses when already in the asked state; otherwise True only when written by compare-and-set on the version read and reported by all members that have an API; the paused flag always agrees with what the run owns |
| `InplaceUpgrades.InplaceUpgrade.WritePause` | major_upgrade/inplace_upgrade.py:150-155 | The write preserves the other keys and happens only on the version read; a refused or unanswered write leaves the flag |
| `InplaceUpgrades.InplaceUpgrade.AwaitPauseState` | major_upgrade/inplace_upgrade.py:157-163 | True only when the last reading has all of these members report the state, and it gives up only after one that has not; for the members that were to acknowledge our pause True makes it acknowledged; waiting writes nothing |
| `InplaceUpgrades.InplaceUpgrade.ResumeCluster` | major_upgrade/inplace_upgrade.py:170-176 | Only our own pause is lifted, nothing is raised, and a pause kept is explained by the last event |
| `InplaceUpgrades.InplaceUpgrade.EnsureReplicaState` | major_upgrade/inplace_upgrade.py:189-212 | A member passes only with a known lag of at most 16 MiB, a healthy API and in recovery; then and only then is it connected |
| `InplaceUpgrades.InplaceUpgrade.EnsureReplicasState` | major_upgrade/inplace_upgrade.py:178-214 | True only when the connections are exactly the other members, all of them fit |
| `InplaceUpgrades.InplaceUpgrade.SanityChecks` | major_upgrade/inplace_upgrade.py:216-230 | True only for an initialized, unpaused cluster of the expected size led by us whose replicas are all fit; not True only when one of these fails or a call does |
| `InplaceUpgrades.InplaceUpgrade.ReplayRound` | major_upgrade/inplace_upgrade.py:254-269 | A round that reports all synced means every connected replica replayed the checkpoint; what is remembered stays true |
| `InplaceUpgrades.InplaceUpgrade.WaitForReplicas` | major_upgrade/inplace_upgrade.py:244-275 | True only when every connected replica replayed the checkpoint; it gives up only after a round in which one had not |
| `InplaceUpgrades.InplaceUpgrade.StartRsyncd` | major_upgrade/inplace_upgrade.py:312-315 | rsyncd counts as started exactly when it is, and only after the checkpoint was read |
| `InplaceUpgrades.InplaceUpgrade.StopRsyncd` | major_upgrade/inplace_upgrade.py:317-331 | Flags and daemon agree; daemon or configs are left only when a call failed |
| `InplaceUpgrades.InplaceUpgrade.ReadCheckpoint` | major_upgrade/inplace_upgrade.py:540-551 | The control data is read with the old binaries, and afterwards the object has the new binaries with the old ones remembered; only a clean shutdown gives an LSN |
| `InplaceUpgrades.InplaceUpgrade.CatchUpReplicas` | major_upgrade/inplace_upgrade.py:537-563 | True only when all connected replicas are at the shutdown checkpoint and rsyncd is alive |
| `InplaceUpgrades.InplaceUpgrade.RunCheckpoints` | major_upgrade/inplace_upgrade.py:565-571 | The results tell exactly which replicas ran CHECKPOINT |
| `InplaceUpgrades.InplaceUpgrade.DropFailed` | major_upgrade/inplace_upgrade.py:583-591 | Exactly the replicas without CHECKPOINT are dropped, and dropping any makes the result False |
| `InplaceUpgrades.InplaceUpgrade.NotifyReplicas` | major_upgrade/inplace_upgrade.py:345-372 | Only ready replicas are told, with the desired version and the host of the primary, and exactly those that were told stay connected |
| `InplaceUpgrades.InplaceUpgrade.FeedbackRound` | major_upgrade/inplace_upgrade.py:376-385 | What is remembered is exactly what was read, and a success is a status starting with 0 |
| `InplaceUpgrades.InplaceUpgrade.AwaitFeedback` | major_upgrade/inplace_upgrade.py:374-397 | True exactly when every replica told reported a status starting with 0; it gives up only after a poll that found a file missing |
| `InplaceUpgrades.InplaceUpgrade.RsyncReplicas` | major_upgrade/inplace_upgrade.py:342-397 | True exactly when every replica connected before reported success; connections only shrink |
| `InplaceUpgrades.InplaceUpgrade.PrepareAndCheck` | major_upgrade/inplace_upgrade.py:513-525 | True only with a fresh data_new, unchanged parameters, the right binaries and a passed check |
| `InplaceUpgrades.InplaceUpgrade.PrepareAndPause` | major_upgrade/inplace_upgrade.py:513-531 | And with the objects dropped and our acknowledged pause |
| `InplaceUpgrades.InplaceUpgrade.ShutDown` | major_upgrade/inplace_upgrade.py:533-563 | True only when stopped and, with replicas, all caught up and rsyncd alive |
| `InplaceUpgrades.InplaceUpgrade.RunAndSwitch` | major_upgrade/inplace_upgrade.py:573-577 | True only when pg_upgrade succeeded, the upgraded directory is the live one and the configs are updated |
| `InplaceUpgrades.InplaceUpgrade.UpgradeAndSwitch` | major_upgrade/inplace_upgrade.py:565-577 | And the CHECKPOINT results are those of exactly the connected replicas |
| `InplaceUpgrades.InplaceUpgrade.SyncReplicas` | major_upgrade/inplace_upgrade.py:582-602 | True exactly when every replica ran CHECKPOINT and reported rsync success |
| `InplaceUpgrades.InplaceUpgrade.RemoveInitializeKey` | major_upgrade/inplace_upgrade.py:232-242 | When it returns without a fault the key was seen to be gone or its removal was the last event |
| `InplaceUpgrades.InplaceUpgrade.RestartPatroni` | major_upgrade/inplace_upgrade.py:604-638 | When it returns Patroni was killed, between two attempts at the initialize key, and the restart of the server was asked for after it |
| `InplaceUpgrades.InplaceUpgrade.WaitForRestarts` | major_upgrade/inplace_upgrade.py:645-646 | Waiting for the replicas raises only after a failure or a change of the membership: a pool for no member, which raises, cannot come up while the connected replicas are members |
| `InplaceUpgrades.InplaceUpgrade.Complete` | major_upgrade/inplace_upgrade.py:633-656 | When it returns, all steps of the end were made in their order, data_old is gone, and the pause is lifted or an event in between shows why not |
| `InplaceUpgrades.InplaceUpgrade.FinishUpgrade` | major_upgrade/inplace_upgrade.py:579-664 | The result is True exactly when every replica followed; whenever it returns all steps to the end were made and data_old is gone |
| `RsyncReplicas.RsyncReplica` | major_upgrade/inplace_upgrade.py:689-772 | Nothing happens exactly unless we are the forked child of the backend that was told and the version differs; then, with nothing failing, the replica ends with the upgraded directory and no data_old, by exactly the events of the source in their order; every other way to return is a server that did not stop, with nothing done, or the rollback of a failed rsync, which gives its old directory exactly when rsync left data_old whole. From the shutdown to the end, also when it is cut off, a complete copy exists at every moment if what rsync wrote leaves one, and in a run that finishes exactly then; every step keeps the data if rsync only lets data_old become the linked one of the primary |
| `RsyncReplicas.Fetch` | major_upgrade/inplace_upgrade.py:724-772 | A successful rsync is kept, a failed one undone; the result is stated for every sequence of writes to the two directories, and so is the exact condition for a complete copy at every moment |
| `RsyncReplicas.NoCopyLeft` | major_upgrade/inplace_upgrade.py:731-740 | When what rsync wrote does not leave a copy, there is a moment without one: during rsync or after the rollback |
| `FileSystems.UsualTransferSpares` | major_upgrade/inplace_upgrade.py:731-736 | What a finished rsync from an upgraded primary does, whose data_old has lost its control file, keeps the data at every step |
| `RsyncReplicas.RollsBackIffWhole` | major_upgrade/inplace_upgrade.py:731-740 | Switching back after a failed rsync restores the replica exactly when rsync, which deletes from data_old as well, left data_old whole |
| `RsyncReplicas.SafeDuringIff` | major_upgrade/inplace_upgrade.py:731-736 | A complete copy exists after every write of rsync exactly when each leaves data or data_old complete, or an earlier data_new is |
| `RsyncReplicas.SafeAfterIff` | major_upgrade/inplace_upgrade.py:736-740 | After the rollback a complete copy remains exactly when rsync left data_old complete, or what it left in data is, or it left no data and an earlier data_new is |
| `RsyncReplicas.FailedRsyncLosesData` | major_upgrade/inplace_upgrade.py:731-740 | The failing input: an rsync that stops in the middle of both directories loses the cluster, and the rollback installs a partial directory |
| `PgUpgrade.PostgresqlUpgrade.RemoveNewData` | major_upgrade/pg_upgrade.py:146-149 | Nothing whose name does not end in _new is ever removed |
| `PgUpgrade.PostgresqlUpgrade.CleanupNewPgdata` | major_upgrade/pg_upgrade.py:151-153 | Even while the object has its directories swapped after a failed initdb the live directory is safe |
| `PgUpgrade.PostgresqlUpgrade.CleanupOldPgdata` | major_upgrade/pg_upgrade.py:155-159 | Removes data_old and, even when it fails half way, touches nothing else |
| `PgUpgrade.PostgresqlUpgrade.SwitchPgdata` | major_upgrade/pg_upgrade.py:161-168 | The directories are switched as specified or a failure is on record, and a complete live directory is never lost |
| `PgUpgrade.PostgresqlUpgrade.SwitchBackPgdata` | major_upgrade/pg_upgrade.py:170-175 | The directories are switched back as specified or a failure is on record, keeping the data |
| `PgUpgrade.PostgresqlUpgrade.PgUpgrade` | major_upgrade/pg_upgrade.py:177-204 | A check changes no directory; a real run succeeds only from an old cluster into an empty new one and touches only these two: with -k the old directory loses its control file and its files are linked, so it ends complete but no longer as a server of its own |
| `PgUpgrade.PostgresqlUpgrade.RestoreConfigValues` | major_upgrade/pg_upgrade.py:235-241 | Puts the saved values back, and raises exactly when one to pop is missing |
| `PgUpgrade.PostgresqlUpgrade.ToInitDbParameters` | major_upgrade/pg_upgrade.py:232-247 | initdb runs with the original values and the extended libraries, which are remembered |
| `PgUpgrade.PostgresqlUpgrade.PrepareNewPgdata` | major_upgrade/pg_upgrade.py:206-266 | After success the object is back at the live directory with a fresh data_new, both binaries set and the parameters as specified, initdb having run with the original parameters and the extended libraries; after a failed initdb it stays swapped, with the data kept |
| `PgUpgrade.PostgresqlUpgrade.AdjustSharedPreloadLibraries` | major_upgrade/pg_upgrade.py:17-25 | The original libraries are saved even when adjusting them raises |
| `PgUpgrade.PostgresqlUpgrade.StartOldCluster` | major_upgrade/pg_upgrade.py:32-42 | The recovery runs with archive_mode off, of the libraries exactly those that the table does not rule out for the old version, and every other parameter as it was; the original values and binaries are remembered, and without a recovery it raises exactly when a library the table does not know is repeated |
| `ServerParameters.StartedRunsOld` | major_upgrade/pg_upgrade.py:32-42 | The same of the parameters, also when the libraries cannot be adjusted and stay |
| `PgUpgrade.PostgresqlUpgrade.DoUpgrade` | major_upgrade/pg_upgrade.py:268-270 | True only with the upgraded directory live, data_old and data_new gone and the new libraries set |
| `ServerParameters.RecoveryRestoresParameters` | major_upgrade/pg_upgrade.py:17-42 | Along start_old_cluster, prepare_new_pgdata and do_upgrade: success exactly when libraries were set; then archive_mode and all else are as originally, and the libraries are the original ones extended for the new version, exactly unless the list holds no unknown name and the table no entry for the new version while the old server ran with some |
| `ServerParameters.KnownVersionRecovers` | scripts/spilo_commons.py:14-18 | With the real table and a new version from 13 to 18 they always are |
| `ServerParameters.OldLibraryStays` | major_upgrade/pg_upgrade.py:245-270 | The failing input: an upgrade to a version newer than the whole real table keeps timescaledb |
| `ServerParameters.PreparedForRecovery` | major_upgrade/pg_upgrade.py:235-241 | Restoring what start_old_cluster saved gives back the original parameters, and raises exactly when no libraries were set |
| `ServerParameters.LiveParametersUnchanged` | major_upgrade/pg_upgrade.py:232-266 | On a live primary prepare_new_pgdata leaves the parameters as they are |
| `ServerParameters.KnownVersionHasLibraries` | scripts/spilo_commons.py:14-18 | For the versions the real table knows the extended list is never empty, for every original list |
| `MaybePgUpgrade.RecoverAndUpgrade` | bootstrap/maybe_pg_upgrade.py:73-121 | Raises for newer clusters, without libraries and for a list that repeats an unknown library, otherwise only after a fault, be it of the last, the unguarded analyze; when it returns, all steps were made in their order, the upgraded directory is live and the parameters are the specified ones, also after a retried recovery; every step keeps the data |
| `MaybePgUpgrade.PerformPitr` | bootstrap/maybe_pg_upgrade.py:44-70 | The object is started once; every recovery runs with its parameters and the command true, the second, from version 13 on and only when the first ended early, with all targets reset; it returns exactly with a recovery that worked and was waited for |
| `MaybePgUpgrade.MethodConfig.ResetTargets` | bootstrap/maybe_pg_upgrade.py:61-64 | All four targets end empty and every other key is untouched |
| `Statistics.CustomStatistics.ResetColumn` | major_upgrade/inplace_upgrade.py:437-441 | A column is saved, with its old target, exactly when its ALTER succeeded, which also reaches all tables below |
| `Statistics.CustomStatistics.ResetDatabase` | major_upgrade/inplace_upgrade.py:433-441 | Returns exactly when the connection, the query and every ALTER of a custom column of the database work; then all of them are saved and none is custom |
| `Statistics.CustomStatistics.Reset` | major_upgrade/inplace_upgrade.py:424-441 | Returns exactly when this holds of every listed database; wherever it aborts, the saved columns had their saved targets, exactly they and the columns below them are at the default, and no other column has changed |
| `Statistics.CustomStatistics.Restore` | major_upgrade/inplace_upgrade.py:443-462 | Applies, in the order of the dictionary, the ALTERs of the databases before the first that cannot be reached, but for those refused |
| `Statistics.CustomStatistics.Analyze` | major_upgrade/inplace_upgrade.py:483-492 | Raises exactly when vacuumdb cannot be started; with nothing failing no listed database has a custom target while vacuumdb runs, and all that had one are saved; in all cases the targets of all columns are given, during and after it, from what was saved and from what the servers answer |
| `Statistics.AllReturnIff` | major_upgrade/inplace_upgrade.py:483-492 | All targets end as they began exactly when nothing was reset, or vacuumdb can be started, every saved database can be reached again, and for each column that was reset or lies below one the last accepted ALTER that reaches it sets its own target |
| `Statistics.PlainTablesReturnIff` | major_upgrade/inplace_upgrade.py:483-492 | Where no reset table has partitions or heirs: exactly when moreover no ALTER of the restore is refused |
| `Statistics.NothingFailsReturnIff` | major_upgrade/inplace_upgrade.py:443-462 | When nothing fails: exactly when for each such column the last saved one among it and those above it had its target |
| `Statistics.PartitionTakesTarget` | major_upgrade/inplace_upgrade.py:456 | The failing input: a table with the target 100 and a partition with none, which ends with 100 |
| `Statistics.PartitionLosesTarget` | major_upgrade/inplace_upgrade.py:438-456 | The failing input: a partition with the target 50, saved before its table, ends with the 100 of the table |
| `Statistics.AppliedAt` | major_upgrade/inplace_upgrade.py:456 | After any ALTERs a column has the target of the last that reaches it, or what it had |
| `Statistics.VacuumLosesTargets` | major_upgrade/pg_upgrade.py:282 | When vacuumdb cannot be started, its unguarded list of databases having raised, every column that was reset or lies below one stays at the default |
| `Statistics.VacuumLosesATarget` | major_upgrade/inplace_upgrade.py:488 | The failing input: one column with a target of its own |
| `Statistics.SaveAdds` | major_upgrade/inplace_upgrade.py:441 | Saving one column adds one entry to the nested dictionary and touches no other |
| `SpiloCommons.AppendExtensions` | scripts/spilo_commons.py:30-45 | The two loops compute the selection function of the list and then the table |
| `SpiloCommons.AppendedMembers` | scripts/spilo_commons.py:30-45 | No duplicates; unknown names exactly as in the list; known names exactly when the version is in their range and their column for the flag is set |
| `SpiloCommons.ShippedMembers` | scripts/spilo_commons.py:14-45 | With the real table: from 13 to 18 and only then pg_stat_statements is preloaded and all three may be created |
| `SpiloCommons.BinDirs` | scripts/spilo_commons.py:55-56 | The binaries of each version have a directory of their own |
| `SpiloCommons.SelectKeepsOrder` | scripts/spilo_commons.py:34-40 | Names stay in the order of their first occurrence |
| `SpiloCommons.AppendIdempotent` | scripts/spilo_commons.py:30-45 | Appending twice is appending once, as strings |
| `SpiloCommons.UpgradeInSteps` | major_upgrade/inplace_upgrade.py:51-60 | On name lists, upgrading V1 then V2 yields the same names as upgrading to V2 directly |
| `SpiloCommons.UpgradeStringsInSteps` | major_upgrade/inplace_upgrade.py:51-60 | On the joined strings this holds exactly when some name is unknown to the table, or the table has an entry for the first version, or none for the second |
| `SpiloCommons.StepsAddEmptyName` | scripts/spilo_commons.py:30-45 | The failing input: timescaledb from version 12 over the real table, where the empty list reads as one empty name that stays |
| `SpiloCommons.ExtensionsWellFormed` | scripts/spilo_commons.py:14-18 | The names of the real table survive splitting, stripping and joining |
| `SpiloCommons.AdjustedMembers` | scripts/spilo_commons.py:20-28 | The result holds exactly the listed names that are unknown or in range for the version and allowed by the flag |
| `SpiloCommons.AdjustExtensions` | scripts/spilo_commons.py:20-28 | Raises exactly when an unknown name is repeated |
| `PgbouncerMerge.Load` | scripts/pgbouncer/merge_parameters.sh:41-45 | A key has a value exactly when some line is the key, a tab and the value and no later line gives the key; a line without a tab is the value of the empty key |
| `PgbouncerMerge.RunFlush` | scripts/pgbouncer/merge_parameters.sh:33-40 | Prints every parameter not used yet, once, and all are used then |
| `PgbouncerTheorems.LineValues` | scripts/pgbouncer/merge_parameters.sh:46-68 | One line adds exactly one setting to a parameter it is the first to use and none to one used before, and keeps all settings of other keys, in front of whatever follows |
| `PgbouncerTheorems.LineOthers` | scripts/pgbouncer/merge_parameters.sh:46-68 | One line that is no replaced setting is printed verbatim, behind the flush of names that are no words where it closes the section |
| `PgbouncerMerge.Merge` | scripts/pgbouncer/merge_parameters.sh:46-76 | The single pass computes the merged file of the specification |
| `PgbouncerMerge.MergeParameters` | scripts/pgbouncer/merge_parameters.sh:30-79 | Without parameters the file is left alone, otherwise it is the merged file |
| `PgbouncerTheorems.LinesTakeEffect` | scripts/pgbouncer/merge_parameters.sh:30-79 | In terms of the lines of the two files: the last line for a word gives its effective value, and a key that no line gives keeps its own |
| `PgbouncerTheorems.SettingIff` | scripts/pgbouncer/merge_parameters.sh:55-59 | A setting is blanks, a word, blanks, an equals sign and the value, and nothing else is one |
| `PgbouncerTheorems.HeaderIff` | scripts/pgbouncer/merge_parameters.sh:46-48 | A header is anything in brackets between blanks, and that of the section has its name there |
| `PgbouncerTheorems.MergeRefinesOverride` | scripts/pgbouncer/merge_parameters.sh:32-77 | With repeated sections, repeated keys and a missing section, for all parameters that do no harm in the order awk enumerates them: each word is set exactly once, to its value up to surrounding blanks, other names never, and every other key keeps all its settings, so the effective values are those of a map override |
| `PgbouncerTheorems.MergeOverrides` | scripts/pgbouncer/merge_parameters.sh:46-76 | The same from every reachable state of the program |
| `PgbouncerTheorems.OverrideIffOrderly` | scripts/pgbouncer/merge_parameters.sh:46-76 | For every set of parameters and every order this holds on all files exactly when, in that order, no name that is no word prints as a setting before the first that prints as a header, and no word comes after that |
| `PgbouncerTheorems.Misread` | scripts/pgbouncer/merge_parameters.sh:55-59 | Every name that is no word but prints as a setting sets another key |
| `PgbouncerTheorems.MisreadName` | scripts/pgbouncer/merge_parameters.sh:55-59 | The failing input: the parameter `x =` with the value 1 sets x to `= 1` |
| `PgbouncerTheorems.AllTakeEffectIffIdents` | scripts/pgbouncer/merge_parameters.sh:55-59 | All parameters take effect exactly when all their names are words |
| `PgbouncerTheorems.OthersSurvive` | scripts/pgbouncer/merge_parameters.sh:46-76 | Under the same condition every line but replaced or dropped settings survives verbatim and in order; beside them stand only a missing section header at the end and, once, the lines of the names that are no words |
| `PgbouncerTheorems.MergeIdempotent` | scripts/pgbouncer/merge_parameters.sh:32-77 | For names that are words, from every reachable state: merging the merged file again changes no line, whatever order either run enumerates the parameters in |
| `PgbouncerTheorems.IdempotentIffIdents` | scripts/pgbouncer/merge_parameters.sh:32-77 | For any parameters that do no harm in the order of the second run, idempotence on all files holds exactly when all names are words: every run adds the lines of the others again |
| `PgbouncerTheorems.AddsInert` | scripts/pgbouncer/merge_parameters.sh:32-77 | Each run over a file with the section makes it longer if a name is no word |
| `PgbouncerTheorems.IdempotentIffIdent` | scripts/pgbouncer/merge_parameters.sh:32-77 | For one parameter, whatever its name prints as, idempotence on all files holds exactly when its name is a word |
| `PgbouncerTheorems.OnlyIdentsTakeEffect` | scripts/pgbouncer/merge_parameters.sh:55-59 | A key that is no word never has an effective value, in any file |
| `WalPrefixes.PatchCrafted` | major_upgrade/inplace_upgrade.py:34-41 | Patching the path crafted for V1 to V2 gives the path crafted for V2 exactly when V1 is installed or equal to V2 |
| `WalPrefixes.PatchIdempotent` | major_upgrade/inplace_upgrade.py:34-41 | Patching twice is patching once, on every string |
| `WalPrefixes.PatchWithoutVersion` | scripts/configure_spilo.py:1001-1006 | A path crafted before the version is known is never patched to the right one |
| `WalPrefixes.WaleEnvironment.SetPrefixes` | scripts/configure_spilo.py:1001-1010 | A configured prefix stays, a missing one is scheme, bucket, /spilo/, scope, /wal/ and version, the one of wal-g follows it, and no other entry changes |
| `WalPrefixes.StoreNames` | scripts/configure_spilo.py:998-1009 | The variables and the scheme of each store |
| `WalPrefixes.CandidatesIff` | bootstrap/clone_with_wale.py:131-140 | A path is searched under all versions exactly when it holds /spilo/ and ends with /wal, slashes at the end aside; otherwise as it is |
| `WalPrefixes.CloneVisitsCrafted` | bootstrap/clone_with_wale.py:121-140 | Over a path crafted without a version the search visits exactly the crafted path of each possible version, with a slash, and then the path itself |
| `WalPrefixes.CloneVisitsOnlyKnown` | bootstrap/clone_with_wale.py:131-140 | A path with a version is the only one visited, exactly unless that version is the word wal and there are others to try |
| `WalPrefixes.PatchVisited` | major_upgrade/inplace_upgrade.py:34-41 | A path the clone settled on is later patched to the crafted path of the new version exactly when its own version is another installed one |
| `CloneWithWale.PossibleVersions` | bootstrap/clone_with_wale.py:99-118 | Exactly the installed versions up to the running one, strictly descending, the last directory of a number counting |
| `CloneWithWale.ChooseBackup` | bootstrap/clone_with_wale.py:68-79 | Raises exactly when a time does not parse; otherwise the backup of the specification |
| `CloneWithWale.Latest` | bootstrap/clone_with_wale.py:68-79 | The latest backup strictly before the target, the first of equals; None exactly when there is none |
| `CloneWithWale.LatestUnique` | bootstrap/clone_with_wale.py:68-79 | There is only one such backup |
| `CloneWithWale.Clone.SearchPrefixes` | bootstrap/clone_with_wale.py:143-160 | The loop with its changing environment computes the search function |
| `CloneWithWale.Clone.FindBackup` | bootstrap/clone_with_wale.py:121-160 | Fails untouched without exactly one prefix variable of the tool in use, by its text, or without versions; otherwise searches the installed versions, newest first, and then the original |
| `CloneWithWale.FoundInFirstSuitable` | bootstrap/clone_with_wale.py:143-157 | The backup is that of the first prefix that has a suitable one: the latest strictly before the target, or LATEST without one |
| `CloneWithWale.UpdateSaysChanged` | bootstrap/clone_with_wale.py:148-157 | The environment differs in the prefix at most, and the second result is None exactly when it does not differ |
| `CloneWithWale.NoBackupsRestores` | bootstrap/clone_with_wale.py:158-160 | No backup is reported exactly when no candidate has one, and the environment is then the original |
| `CloneWithWale.FailsIff` | bootstrap/clone_with_wale.py:143-157 | The search fails exactly when a listing does, or has a time that cannot be read where one is needed, after candidates without a backup to take |
| `CloneWithWale.Clone.Run` | bootstrap/clone_with_wale.py:163-179 | What find_backup finds is fetched; it returns exactly when it was found, fetched and, where the prefix changed, the envdir could be told; the envdir then holds the prefix the backup was fetched from |
| `Segments.GenerateNextSegments` | scripts/wal-e-wal-fetch.sh:149-160 | As many names as asked, the i-th being the i-th successor |
| `Segments.NextIsSuccessor` | scripts/wal-e-wal-fetch.sh:149-160 | The i-th name is a segment name exactly while the log fits eight digits, and then denotes the linear segment plus i + 1 on the same timeline |
| `Segments.NextInOrder` | scripts/wal-e-wal-fetch.sh:149-160 | The names are distinct and sort byte by byte as they count, all after the segment given |
| `Segments.Predecessor` | scripts/basebackup.sh:68-79 | The borrow yields the segment linearly before, on the same timeline; only for the very first segment it yields no segment name |
| `Segments.BeforeIsPredecessor` | scripts/basebackup.sh:68-79 | It is the linear segment before; exactly the very first segment has no predecessor name |
| `Segments.BeforeNext` | scripts/basebackup.sh:68-79 | The predecessor of the first generated name is the segment itself exactly when its segment number is below 256 |
| `Segments.NameDenotes` | scripts/wal-e-wal-fetch.sh:158 | A printed name denotes the printed numbers exactly when the log fits eight digits |
| `Segments.NameOfParts` | scripts/wal-e-wal-fetch.sh:152-154 | Every segment name is printed back from its parsed parts |
| `Segments.ParsePrint` | scripts/wale_restore.sh:58-60 | Reading printed hexadecimal gives the number back |
| `Segments.Print8Parse` | scripts/basebackup.sh:69-79 | Printing eight read digits gives them back |
| `Segments.SortsAsLinear` | scripts/wal-e-wal-fetch.sh:149-160 | Segment names of one timeline sort as they count, and are equal exactly when they count the same |
| `Segments.StartLsnIsOffset` | scripts/wale_restore.sh:58-60 | The position is the linear segment times 2^24 and readable exactly when the segment number is below 256 |
| `Segments.StartLsnMonotone` | scripts/wale_restore.sh:58-60 | Positions are strictly monotone in the segment, also in the byte order of the names |
| `BackupRetention.BackupStore.Examine` | scripts/postgres_backup.sh:45-62 | The loop finds the newest expired backup, the first of equals, and counts the others |
| `BackupRetention.BackupStore.Run` | scripts/postgres_backup.sh:17-72 | Nothing happens on the wrong role; otherwise exactly the surviving backups and the new one are left, and the status is that of the push |
| `BackupRetention.ExpiredIsOld` | scripts/postgres_backup.sh:50 | The truncating division makes a backup expired exactly from N whole days on; one from the future is not |
| `BackupRetention.RemovesOnlyOld` | scripts/postgres_backup.sh:45-70 | Every removed backup is more than N days old, N + 1 remain when any is removed, and at least min(before, N + 1) remain always |
| `BackupRetention.RemovesExactly` | scripts/postgres_backup.sh:45-70 | With at least N backups younger than N days, exactly those older than the newest that is not are gone that the tool removes; with fewer nothing is |
| `BackupRetention.RemovesNothing` | scripts/postgres_backup.sh:64-70 | Without a backup that is N days old nothing is removed |
| `BackupRetention.FreshCounts` | scripts/postgres_backup.sh:56-59 | What the loop counts as left is the number of backups younger than N days |
| `BackupRetention.KeepsRecoveryWindow` | scripts/postgres_backup.sh:64-70 | A backup at least N days old is left if there was one |
| `BackupRetention.CountOverRuns` | scripts/postgres_backup.sh:26-72 | Over any runs, pushing or failing to, with settings of at least N: the count grows with the pushes until N + 1 and never falls below again, and is one more right after a push |
| `BackupRetention.YoungSurvive` | scripts/postgres_backup.sh:45-70 | A backup survives every run made while it is at most N days old |
| `BackupRetention.WindowOverRuns` | scripts/postgres_backup.sh:45-70 | Once there is a backup N days old there is one after every later run |
| `DeepUpdates.DeepUpdate` | scripts/configure_spilo.py:149-166 | On objects, none of them shared: the in-place recursion computes the pure merge, changes nothing outside the first argument and returns it when both are dicts |
| `DeepUpdates.Configure` | scripts/configure_spilo.py:1198-1199 | On objects, none of them shared: the user configuration keeps its meaning and shares no dict with the result, which is the merge of it and the defaults |
| `SharedDicts.Memory.DeepUpdate` | scripts/configure_spilo.py:149-166 | On dicts that may be shared: the in-place loop and recursion compute the update of the memory that the following lemmas are about |
| `SharedDicts.Memory.Configure` | scripts/configure_spilo.py:1198-1199 | The same for the copy of the user configuration, in which what was shared is shared |
| `SharedDicts.ConfigureKeepsUser` | scripts/configure_spilo.py:1198-1199 | Whatever is shared in it, the user configuration itself stays as it was |
| `SharedDicts.ConfigureMergesIff` | scripts/configure_spilo.py:1198-1199 | The result is the merge, for all defaults, exactly when in the user configuration no dict that keys alone lead to is reached in a second way |
| `SharedDicts.MergesIffTree` | scripts/configure_spilo.py:149-166 | On dicts that may be shared, under keys or in lists, as YAML aliases share them, deep_update computes the merge for all defaults exactly when no dict that keys alone lead to is reached in a second way |
| `SharedDicts.SeparateIffOnePath` | scripts/configure_spilo.py:149-166 | The condition said of paths: a path of keys to a dict is the only path to it, through dicts and lists |
| `SharedDicts.SharedFails` | scripts/configure_spilo.py:149-166 | For every other configuration there are defaults, for a path of keys to a dict, that show up under the second path to it |
| `SharedDicts.AliasedDict` | scripts/configure_spilo.py:156-161 | The failing input: {a: &x {p: 1}, b: *x} with defaults {a: {q: 2}, b: {r: 3}} ends with q and r under both keys |
| `SharedDicts.UnsharedDict` | scripts/configure_spilo.py:149-166 | The merge of the same values has r under b and q under a only |
| `SharedDicts.AliasedItem` | scripts/configure_spilo.py:156-161 | The failing input with a list: {a: &x {p: 1}, l: [*x]} with defaults {a: {q: 2}} ends with q in the item of l, where the merge has the item of the user |
| `SharedDicts.UpdateFits` | scripts/configure_spilo.py:149-166 | Under the condition only the dicts that keys alone lead to change, and the condition stays |
| `DeepUpdates.MergeAt` | scripts/configure_spilo.py:149-166 | Under every path: nothing below a value the user set, otherwise what the user and the defaults have there, merged, or what one of them has |
| `DeepUpdates.UserWins` | scripts/configure_spilo.py:149-166 | User values other than None always win; a default fills only missing or None places |
| `DeepUpdates.KeysUnite` | scripts/configure_spilo.py:149-166 | Where both have a dict its keys are the union, at every level |
| `DeepUpdates.MergeTwice` | scripts/configure_spilo.py:149-166 | Merging the same defaults twice equals once |
| `Conninfo.EscapeValue` | bootstrap/clone_with_basebackup.py:27-37 | The loop and its quote flag compute the escaping that the round trip is about |
| `Conninfo.PrepareConnection` | bootstrap/clone_with_basebackup.py:40-46 | The loop over the attributes prints the connection string that the round trip is about |
| `Conninfo.ConnectionRoundTrip` | bootstrap/clone_with_basebackup.py:27-46 | Parsing the connection string with the conninfo grammar returns the four values exactly when host, port and user are not empty |
| `Conninfo.SwallowsNext` | bootstrap/clone_with_basebackup.py:40-46 | An empty value swallows the pair that follows it |
| `Pgpass.EscapeValue` | scripts/configure_spilo.py:1294-1300 | The loop computes the escaping that the round trips are about |
| `Pgpass.ClonePgpass` | scripts/configure_spilo.py:1033-1041 | A reader that splits the file on unescaped colons gets the five fields exactly when the port has no colon or backslash |
| `Pgpass.LineRoundTrip` | scripts/configure_spilo.py:1033-1041 | Splitting the line on unescaped colons returns the five fields exactly when the port has no colon or backslash |
| `Pgpass.FileRoundTrip` | scripts/configure_spilo.py:1033-1041 | A client reads the five fields from the file exactly when moreover the host does not begin a comment and no end of line cuts the line |

## Left out

- The insides of Patroni, psycopg2, pg_upgrade, rsync, wal-e, wal-g and pg_controldata: each call has an abstract result and the least effect on the model state.
- `pg_upgrade` in link mode: the old directory becomes an image of its own kind, complete but not to be started; that later writes to the new directory reach it through the links is not modelled.
- RsyncReplicas.RsyncReplica: a run cut off before its end may have a complete copy throughout although what rsync would have written leaves none. Nothing is claimed about the exit status on success but that it is 1, which is how Python passes True on.
- `major_upgrade/pg_upgrade.py:96` adds a tuple to a string and raises as written; the intended one-element tuple is modelled, so that dropping the objects is one call that may fail.
- `new_data_created` is never set, so the branch of `post_cleanup` it guards is not modelled, and nothing is claimed about `data_new` after a failed run.
- The scratch directory of `pg_upgrade`, the copied configuration files and the written configs of `update_configs` and rsyncd: their steps are events of the trace, what they write is not modelled.
- Real time: every `polling_loop` is an arbitrary number of rounds, at least one, that may end in a timeout, and sleeps are dropped.
- Threads: the CHECKPOINT pool and analyze run in sequence; a joined pool has its results ready.
- Values of pause other than true and false that Patroni also reads as true.
- The configured binaries are taken to be those of the cluster's version when an upgrade starts, which `scripts/configure_spilo.py:1206-1212` sees to.
- The feedback directory of rsyncd is taken to be empty at the start, so that a feedback file is of this run.
- `os.path.abspath` of a data directory is the directory itself, and its three names lie in one file system.
- `reanalyze`, `update_extensions`, `recreate_extensions` and `call_post_bootstrap` are events of the trace without other state, and the backup after the upgrade is left out. An ALTER that raises is taken not to be applied.
- The statistics targets are a theory of their own, about the catalog; they are not joined with the trace of the upgrade. Whether a server accepts an ALTER or a connection is fixed for one run.
- InplaceUpgrades.InplaceUpgrade.TryUpgrade: the faults that excuse a result other than True include other writers' changes and a changed membership, because the script cannot tell them from failures.
- The second formatting pass of the crafted archive path, which would expand braces in a scope, and the other settings of the WAL environment files.
- CloneWithWale.Clone.FindBackup: the listing is a function of the environment, because no environment is listed twice in one search.
- The parsing of `backup-list` output and of dates: a listing is given, with times that parse or do not.
- The wrap-around of 64-bit shell arithmetic in segment names, which is out of reach for any count that ends; and the thresholds of `scripts/wale_restore.sh`, which are one comparison each.
- Backup names that are empty or repeated, and a retention setting that is no number.
- DeepUpdates.DeepUpdate: on objects the dicts of the two arguments form separate trees and lists are values; what YAML aliases do is the subject of SharedDicts, where the memory is a map from places to dicts.
- DeepUpdates.Configure: the same restriction to separate trees, lifted in SharedDicts.Memory.Configure.
- A configuration that contains itself through an alias, which has no finite unfolding.
- PgbouncerTheorems.IdempotentIffIdents: parameters that do harm, where a misread line can be dropped and added again by the second run; for a single parameter IdempotentIffIdent has no condition.
- `escape_value` needs strings, so the default port, an integer, has to be given as one.
- The REST API, certificates, crontab, provider detection, the template of `scripts/configure_spilo.py`, the callbacks, the log upload, the pgBackRest scripts and the S3 signing of `scripts/wal-e-wal-fetch.sh`: plumbing without algorithmic state.
