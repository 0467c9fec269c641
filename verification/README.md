# Verified model of a vector database and its storage engine

This project models a database written in Rust whose two halves are a log-structured merge tree and a set of
approximate nearest neighbour indexes, and proves properties of the model with Dafny 4.11. `dafny verify
dfyconfig.toml` checks all of it. Every module names the source file it models in its first comment. Code that
the source writes as loops or as updates of an object is a method or a class here, proved against a specification
function; the lemmas then speak of that function.

## The storage engine

The concrete state of the engine (`lsm.dfy`) is a memtable, levels of runs with the newest first, runs of ascending
disjoint tables, and a directory of files, a manifest and a log. The abstract state is what a reader sees under each
key. The engine's field `trace` records every state the directory goes through, so a crash is the choice of one of
them.

- `Runs.Run` is the statement about whole runs. Take any list of writes, deletes, flushes and compactions asked for on a
  new database, each compaction planned by any planner whose jobs are safe (`LsmEngines.FluidPlannerIsSafeExactlyWhen`
  says when the repository's policies are, for any growth scheme). Let each operation be cut off after any number of
  steps of the directory, let any number of attempts to open it again die on the way, and let any read during a
  compaction fail. If the caller opens the directory again after every failure, every key reads as the newest write
  that took effect says.
- If the caller goes on after a failed compaction instead, the history of the run names the tree that the compaction
  was planned for and its job, and says key by key what became of the answers: exactly the keys that this job forgets
  on that tree and the memtable does not have read otherwise (`Runs.Follows`). `Runs.Keeps` follows one key through a
  history: a write restores it, a failure that forgets it loses it to the process, a commit passes the loss on to the
  directory, and starting again brings back what is stored. A key that is kept reads as its newest effective write
  (`Runs.KeptIsNewest`), and of the keys kept so far a failure loses exactly those it forgets (`Runs.LossIsExact`).
- `Recovers` says what a directory in the middle of an operation is worth: opening it gives a tree with given
  answers. Every method of `LsmTree` promises it for every state in its trace.
- A compaction (`compactions.dfy`) moves files between runs. `CompactionKeepsKey` gives the exact condition under
  which a reader notices. `planning.dfy` and `limited.dfy` follow the leveling and tiering policies and prove exactly
  when the jobs they plan go unnoticed; `fluid.dfy` proves for one policy a level that a tree keeps the condition over
  whole runs. `failures.dfy` treats compactions that could not read their inputs, `units.dfy` the unit counts that
  EcoTune's schedule rests on.
- `separated.dfy` puts the value log beside the tree and composes their crash safety; lookups and scans load values.
- Below the engine, the file formats are byte-exact: SSTable blocks, index, filter and footer; log records; value-log
  records; manifest text; CRC-32. Round trips, torn tails and damaged bytes are treated there.

## The indexes and the optimisation kernels

- RaBitQ's sweep over critical values finds the best point of an exponential grid. The proof avoids square roots and
  says nothing about the order in which ties are popped, so it holds for every order.
- EcoTune's memoised recursion is proved optimal over all plan trees, and the schedule read off it well formed.
- Lloyd's iteration never raises its inertia, also when it revives empty clusters.
- DEG: interval sets form a canonical algebra, the closed-form pruning ranges and the active ranges of Algorithm 2 are
  exact, the Pareto sweep and its layers are exact, Theorem 4.1 holds, the greedy frontier search loses nothing, and
  the beam search is the same with and without its early exit.
- The bounded-heap scans of brute force and of the inverted file return exactly what sorting and truncating would.

## Where the code falls short of its documentation

The model follows the code. In these places the code does not do what a comment or the documentation says. Each has a
concrete input and, for all inputs, the condition under which the code does.

- Merging only the newest runs of a level drops tombstones whenever every deeper level is empty, although older runs
  of the same level stay behind (`src/storage/compaction/tiering.rs:77-88`). A deleted key can come back, under leveling
  as well: `UnsafePlans.MergingNewestRunsResurrects`, and exactly when:
  `UnitLimited.TieringLimitedPreservesExactlyWhen`, `UnitLimited.LevelingLimitedPreservesExactlyWhen`.
- Leveling takes only the target files that overlap the sources and relies on the target's runs not overlapping each
  other (`src/storage/compaction/leveling.rs:90-98`, `154-179`). Switching a live tree from tiering
  (`src/storage/lsm.rs:1080`) leaves levels where they do. Then an old value can go on top of a newer one
  (`UnsafePlans.LevelingOvertakes`) or a dropped tombstone can uncover one (`UnsafePlans.LevelingUncovers`); exactly
  when: `UnitLimited.LevelingPreservesExactlyWhen`. A tree that keeps its policy never gets there, whatever its growth
  scheme asks for: `Fluids.FluidStaysTamed`.
- The units of a merge are added up after its inputs have left the levels (`src/storage/lsm.rs:837-851`), so the
  indices no longer name the inputs: `UnsafePlans.MergeLosesUnits`. What is charged, and when that is what the inputs
  carry, is stated for whole levels, slices and newest runs in `units.dfy`; EcoTune's schedule is carried out exactly
  when `Units.ScheduleHappensExactlyWhen` says.
- A failed read ends a compaction after its inputs have left the levels in memory (`src/storage/lsm.rs:809-879`). The
  directory still stands for its tree, but a caller that goes on is served without the inputs, and the next flush
  commits the loss and has the files deleted: `LostInputs.FailureThenFlushForgets`. A key is lost exactly when
  `Failures.FailedCompactionKeepsKey` says, and over whole runs `Runs.LossIsExact`; a restart before the next commit
  loses nothing (`Runs.StartingAgainRestores`).
- The SSTable writer accepts keys and values up to the width of the length field, while the reader rejects those over
  its own limit: `SSTableFormat.OneByteTooMany`, and for all entries `SSTableFormat.OversizedEntryIsUnreadable`. The
  engine's log accepts nothing that long: `TableSizes.LoggedIsReadable`.

## Model

| member | source | states |
|---|---|---|
| `Runs.Run` | src/storage/lsm.rs:460-915 | For every sequence of writes, flushes and compactions on a new database, each event with a safe planner of its own, each possibly cut off after any number of steps of its directory, started again after any number of openings that die on the way, and each possibly hit by failed reads, after which the caller opens the directory again or goes on: the run has a history in which each event follows on from the one before as `Follows` says; every key that `Keeps` says is kept reads as the newest write that took effect; and a caller that never goes on after a failed compaction keeps every key. A write takes effect exactly if it fits the log and the process made its first step. |
| `Runs.Live` | src/storage/lsm.rs:636-915 | One event, on any tree the engine can have, one left by a failed compaction included, ends in one of three ways. The process goes on serving its answers with the event's write among them. Or it goes on without the inputs of a failed compaction: the levels are those the compaction was planned for without its inputs, and a key is answered as if nothing had failed if and only if the memtable has it or the job does not forget it. Or it is started again on what is stored. Each time what is stored is what was stored or what was served before, with the event's write over it; a caller that restarts, or whose reads succeed, never goes on without inputs. |
| `Runs.CutOffRecovers` | src/storage/lsm.rs:901-911 | Wherever an operation is cut, the disk recovers: with the answers stored before when no step was made, otherwise with the operation's record over the answers stored or served before. |
| `Runs.Attempt` | src/storage/lsm.rs:460-547 | However many attempts to open a directory die on the way, each after any number of deletions, the directory goes on recovering with the same answers and has lost only tables that its manifest does not name. |
| `Runs.KeptIsNewest` | src/storage/lsm.rs:752-806 | In every history, a key that is kept by the process reads as the newest effective write to it, and a key that is kept by the directory would after a restart. |
| `Runs.LossIsExact` | src/storage/lsm.rs:809-879 | When a caller goes on after a failed compaction, of the keys kept until then or just written exactly those that the compaction forgets and the memtable does not have stop reading as their newest effective write. |
| `Runs.StartingAgainRestores` | src/storage/lsm.rs:460-547 | A caller that went on after a failed compaction and starts again before the next commit has lost nothing. |
| `LsmEngines.LsmTree.Open` | src/storage/lsm.rs:460-547 | Opening any directory that a crash may leave deletes the tables its manifest does not name, one at a time; every directory on the way recovers and misses only such tables, and the tree found answers as it should. |
| `LsmEngines.LsmTree.Sweep` | src/storage/lsm.rs:531-547 | In whatever order the directory lists its files, each deletion is a step after which the directory recovers with the same answers; in the end exactly the unreferenced tables are gone. |
| `LsmEngines.OpeningFinds` | src/storage/lsm.rs:460-547 | What opening finds in a directory that recovers is a tree with the same answers, sequence numbers included, and its runs are as tame as before. |
| `LsmEngines.NewDatabaseRecovers` | src/storage/lsm.rs:460-497 | An empty directory is the empty tree. |
| `LsmEngines.LsmTree.Write` | src/storage/lsm.rs:636-654 | Put and delete, also on a tree left by a failed compaction: an oversized record is refused and changes nothing; otherwise the key reads as written, every other key as before, also when the write sets off a flush and compactions, and every disk from the first step on recovers with the new record over the answers stored or served before. If a compaction fails, the levels are those it was planned for, which the directory stands for, without its inputs, and exactly the keys it forgets read otherwise, the key just written included. |
| `LsmEngines.LsmTree.Put` | src/storage/lsm.rs:636-654 | The stored value is what the key reads as, every other key reads as before; a refused record changes nothing. After a failed compaction this is true of exactly the keys that its job does not forget on the tree the directory stands for. |
| `LsmEngines.LsmTree.Delete` | src/storage/lsm.rs:631-634 | The key reads as absent, every other key as before; a refused record changes nothing. After a failed compaction this is true of exactly the keys that its job does not forget on the tree the directory stands for. |
| `LsmEngines.LsmTree.Flush` | src/storage/lsm.rs:752-785 | No answer changes and the memtable empties, and every disk on the way recovers. If a compaction fails, the directory stands for the tree it was planned for, with the answers from before, and exactly the keys its job forgets on that tree change their answers. |
| `LsmEngines.LsmTree.FlushMemtable` | src/storage/lsm.rs:752-779 | Write the run, commit the manifest, only then drop the log: at each of these steps the directory recovers with the answers stored or served before, and from the commit on it stands for the levels in memory, whatever it stood for before. |
| `LsmEngines.LsmTree.WriteMemtable` | src/storage/lsm.rs:757-764 | Until the manifest names the new run its files are inert, whatever part of them has been written. |
| `LsmEngines.LsmTree.CommitFlush` | src/storage/lsm.rs:774-777 | Both the state between commit and log reset and the state after it recover with the answers from before the flush. |
| `LsmEngines.LsmTree.StoreManifest` | src/storage/lsm.rs:948-979 | Committing levels that can be committed: from the one step on, opening the directory finds these levels run by run, this sequence number and the replayed log; files and log are untouched. |
| `LsmEngines.FlushStep` | src/storage/lsm.rs:766-775 | The run in front of level 0 answers what the memtable answered, with and without the log replayed over it, and the new levels can be committed. |
| `LsmEngines.LsmTree.Execute` | src/storage/lsm.rs:809-915 | Any job that names runs in order: after it every key reads as ReadAfter says and the directory stands for the new levels. A safe job changes no answer and every disk on the way recovers. If an input cannot be read, the directory goes on standing for its tree while the levels in memory are those without the inputs. |
| `LsmEngines.LsmTree.MergeInputs` | src/storage/lsm.rs:809-879 | The inputs leave the levels, their merge goes to files of a fresh sequence number, charged the units the source's code adds up, and the directory stands for its tree throughout, readable inputs or not. |
| `LsmEngines.LsmTree.Finish` | src/storage/lsm.rs:881-914 | Install, commit, unlink: the inputs are deleted only when no live table shares their names. |
| `LsmEngines.LsmTree.Unlink` | src/storage/lsm.rs:905-911 | Deleting the inputs one by one keeps the directory standing for the new tree after every deletion. |
| `Failures.FailedCompactionKeepsKey` | src/storage/lsm.rs:809-879 | For every tree and every job in read order: after a failed read, the levels in memory answer a key as before if and only if it is not the case that its newest record was taken and what is left of it, the newest record left or none, reads differently. |
| `Failures.LossyIsSound` | src/storage/lsm.rs:809-879 | What is left is a tree in its own right; its tables are the old ones without the inputs. |
| `Failures.LossyStaysTamed` | src/storage/lsm.rs:809-835 | Levels that may hold one run share no key afterwards either, so the policy plans on them as on any tree. |
| `LsmEngines.FlushMakesLossPermanent` | src/storage/lsm.rs:752-785 | A flush after a failed compaction commits the levels without the inputs: the directory then stands for them with the new run in front, and the next startup deletes every input's file. |
| `LostInputs.FailureThenFlushForgets` | src/storage/lsm.rs:809-879 | A concrete directory: one run, planned to be drained into the next level, cannot be read. Its key reads as absent from then on, and after the next flush the file with the key's value is swept. |
| `LostInputs.GoingOnForgets` | src/storage/lsm.rs:793-879 | The same as an event of a run: compactions are asked for, the file cannot be read, the caller goes on. The event follows as `Follows` says, the process no longer has the key and the directory still does. |
| `LsmEngines.InstalledSafely` | src/storage/lsm.rs:881-899 | A safe job, once installed, answers every key as before and leaves a tree on which planning goes on being safe. |
| `LsmEngines.InstallCommits` | src/storage/lsm.rs:901-911 | The manifest of the installed levels stands for them, and the inputs share no name with them. |
| `LsmEngines.FiledTogether` | src/storage/lsm.rs:981-985 | Tables of a fresh sequence number and the live ones together have names of their own: no fresh filename collides with a live one. |
| `LsmEngines.FluidPlannerIsSafeExactlyWhen` | src/storage/lsm.rs:793-806 | Whatever whole levels and newest units a growth scheme asks for, planning them with one policy a level is safe on every tree the engine can be in, if and only if no merge of the newest units takes the tombstone that answers a key and leaves an older value of the key in the deepest level. |
| `Units.TieringWholeIsCharged` | src/storage/lsm.rs:837-851 | Tiering whole levels is charged one unit, which is what its inputs carry if and only if they carry at most one. |
| `Units.LevelingWholeIsCharged` | src/storage/lsm.rs:837-851 | So is leveling whole levels. |
| `Units.SliceIsCharged` | src/storage/lsm.rs:837-851 | A slice is charged its run's units as long as the run has files left, and one otherwise. |
| `Units.NewestRunsAreCharged` | src/storage/lsm.rs:837-851 | A merge of the newest runs of a level, as many as the schedule's count takes, is charged the units of the runs that move up into their places. |
| `Units.NewestRunsAreChargedInFull` | src/storage/lsm.rs:837-851 | That is what its inputs carry if and only if as many units move up as were taken. |
| `UnsafePlans.MergeLosesUnits` | src/storage/lsm.rs:837-851 | A concrete tree on which two units are merged and one is charged. |
| `Units.InstalledUnits` | src/storage/lsm.rs:837-899 | Installing such a merge makes of the level's units what ChargedAbsorb says. |
| `Units.ScheduleHappensExactlyWhen` | src/storage/compaction/ecotune.rs:264-316 | For every plan of a round and every main level: the engine's level after each merge is the scheduled one if and only if, at every merge, the units of the runs that move up add up to its width. |
| `Units.ReachingTheOldestIsMischarged` | src/storage/compaction/ecotune.rs:264-316 | Once a merge of the schedule reaches the oldest run of the main level, the round is not carried out as scheduled. |
| `LsmEngines.LsmTree.CompactUntilQuiet` | src/storage/lsm.rs:793-806 | However many planned compactions run, no answer changes, and every disk on the way recovers. If one fails, it was planned for a tree with the answers from before, one of its inputs could not be read, the levels in memory are that tree's without its inputs, and exactly the keys that it forgets and the memtable does not have change their answers; a restart finds the answers from before. Either nothing was committed before it, or the directory stands for that tree. |
| `LsmEngines.ForgottenKeys` | src/storage/lsm.rs:809-879 | Over any memtable, the levels without a job's inputs answer a key as the whole levels do if and only if the memtable has the key or the job does not forget it. |
| `LsmEngines.LsmTree.WriteRun` | src/storage/lsm.rs:1210-1258 | The run written holds exactly the entries, in order, cut into non-empty files under fresh names, each small enough to be opened again if the file size target is at most 64 MiB; nothing is written for no entries. |
| `LsmEngines.LsmTree.WriteFile` | src/storage/lsm.rs:1210-1258 | A file is filled entry by entry, and the directory stands for the same tree with any part of it written. |
| `LsmEngines.LsmTree.TakeFiles` | src/storage/lsm.rs:1124-1144 | Taking the files one selection at a time takes what the job names and leaves every other file at its place. |
| `LsmEngines.LsmTree.PruneTouched` | src/storage/lsm.rs:1150-1152 | Runs left without files go from every level the job touched and from no other. |
| `LsmEngines.LsmTree.Install` | src/storage/lsm.rs:881-899 | The output lands in front of its target level, folded when folding is on. |
| `LsmEngines.LsmTree.Get` | src/storage/lsm.rs:660-679 | Memtable, then each level and run newest first: the answer is the newest record of the key. |
| `LsmEngines.LsmTree.Iter` | src/storage/lsm.rs:689-707 | A scan lists, in strictly ascending order, exactly the keys a lookup finds, with the values it finds. |
| `LsmEngines.LsmTree.RangeFrom` | src/storage/lsm.rs:720-747 | Seeking every source and merging gives the tail of the full scan. |
| `LsmEngines.MergeGroups` | src/storage/lsm.rs:854-879 | Readable groups give their whole merge; a failed read leaves a prefix of it. |
| `LsmTrees.RunGetIsLookup` | src/storage/lsm.rs:387-398 | Probing the one table that can hold a key answers as a search of the whole run. |
| `LsmTrees.SourceFromIsTail` | src/storage/lsm.rs:408-418 | Skipping whole tables and seeking in the next yields the run from the key on. |
| `LsmTrees.ReadIsNewest` | src/storage/lsm.rs:660-679 | The lookup order of the tree is the newest-first order of its merge sources. |
| `LsmTrees.IterAgreesWithGet` | src/storage/lsm.rs:689-707 | In every sound state a scan and a lookup agree on every key, and the scan strictly ascends. |
| `LsmTrees.RangeIsTailOfIter` | src/storage/lsm.rs:720-747 | A range scan is the part of the full scan at or after its start. |
| `Compactions.CompactionKeepsKey` | src/storage/lsm.rs:809-899 | For every tree and every job in read order: a compaction changes what a reader of a key sees if and only if the key's newest taken record and its newest record left change places and read differently. |
| `Compactions.OutputHolds` | src/storage/lsm.rs:854-869 | The output holds, for each key, the newest taken record, minus dropped tombstones, and nothing for keys not taken. |
| `Compactions.AfterAt` | src/storage/lsm.rs:1124-1144 | Taking files leaves every run at its index with exactly the unselected files. |
| `Compactions.TakenAt` | src/storage/lsm.rs:1124-1144 | Group i of the inputs is the files that selection i names. |
| `Compactions.SplitLookup` | src/storage/lsm.rs:1124-1144 | Splitting a run into taken and left files splits its keys: each lookup is answered by exactly one part. |
| `Planning.ValidJobPreserves` | src/storage/compaction/mod.rs:69-84 | If every key keeps its order and no tombstone is dropped over something older, no reader sees the compaction. |
| `UnitLimited.TieringPreservesExactlyWhen` | src/storage/compaction/tiering.rs:62-90 | For every tree and every request the growth schemes make: tiering changes no answer if and only if a merge of the newest units uncovers nothing. |
| `UnitLimited.LevelingPreservesExactlyWhen` | src/storage/compaction/leveling.rs:47-99 | For every tree and every request the growth schemes make: leveling changes no answer if and only if a merge of the newest units uncovers nothing and, for whole levels, no key of a rewritten target file changes places with a record left in another run of the target. |
| `Planning.LevelingWholePreservesExactlyWhen` | src/storage/compaction/leveling.rs:47-99 | Leveling whole levels changes no answer if and only if for no key the newest taken record is in a target file, the newest record left is in a newer run of the target, or in an older one while a dropped tombstone hid it, and a reader can tell the two apart. |
| `Planning.MergeableIsNotOvertaken` | src/storage/compaction/leveling.rs:158-179 | No target run that stays behind is newer than a rewritten one with the same key when the target is merged whole or its runs share no key. |
| `Planning.LevelingClears` | src/storage/compaction/leveling.rs:90-98 | Nothing of a taken key is left at the target, nor below it when the target is the deepest level: the condition under which leveling drops tombstones. |
| `Planning.TieringClears` | src/storage/compaction/tiering.rs:71-89 | Nothing is left of the source levels, nor below the target when tombstones are dropped. |
| `UnitLimited.TieringLimitedPreservesExactlyWhen` | src/storage/compaction/tiering.rs:62-90 | Merging the newest runs of a level changes no answer if and only if for no key the tombstone that answers it is among them, no deeper level holds data, and an older run of the level has a value of the key. |
| `UnitLimited.LevelingLimitedPreservesExactlyWhen` | src/storage/compaction/leveling.rs:47-99 | The same holds when leveling is asked for the newest units. |
| `UnitLimited.PrefixReads` | src/storage/compaction/tiering.rs:62-90 | What each key reads as before and after such a merge, from the levels before it. |
| `UnitLimited.GuardSuffices` | src/storage/compaction/tiering.rs:71-89 | Nothing is uncovered while a deeper level holds data or where the level's runs share no key. |
| `Planning.NewestRunsKeepOrder` | src/storage/compaction/mod.rs:168-197 | What the unit count leaves out of a level is older than all it takes. |
| `UnsafePlans.MergingNewestRunsResurrects` | src/storage/compaction/tiering.rs:71-89 | A concrete tree on which merging two units of the main level, as EcoTune asks, brings a deleted key back under tiering and leveling alike. |
| `UnsafePlans.LevelingOvertakes` | src/storage/compaction/leveling.rs:158-179 | A concrete tree, with overlapping runs at the target, on which leveling brings an old value back. |
| `UnsafePlans.LevelingUncovers` | src/storage/compaction/leveling.rs:90-98 | A second one, on which nothing is overtaken but a dropped tombstone uncovers the value in an older run of the target. |
| `Fluids.FluidIsSafeExactlyWhen` | src/storage/compaction/fluid.rs:130-136 | With one policy a level, on a tree whose single-run levels share no key, and for every request the growth schemes make: the planned job changes no answer if and only if a merge of the newest units uncovers nothing. |
| `Fluids.FluidStaysTamed` | src/storage/compaction/fluid.rs:130-136 | Executing the job planned for any request the growth schemes make, folded or not, leaves such a tree again, so the property holds over whole runs. |
| `Fluids.FlushStaysTamed` | src/storage/lsm.rs:766-772 | A flush leaves such a tree as well. |
| `Fluids.TargetStaysDisjoint` | src/storage/lsm.rs:881-899 | The output of a leveling job shares no key with what it leaves at the target. |
| `Coalescing.CoalesceKeepsReads` | src/storage/lsm.rs:1166-1200 | Folding the runs of a level changes no answer and leaves sound runs. |
| `Coalescing.FoldedIsSound` | src/storage/lsm.rs:1166-1200 | Runs whose sorted ranges do not touch fold, table by table, into one ascending run over the same tables. |
| `Coalescing.SeparatedIsPairwise` | src/storage/lsm.rs:1166-1185 | Comparing neighbours in sorted order is enough to know that no two ranges overlap. |
| `Installs.InstalledReads` | src/storage/lsm.rs:809-899 | Taking, pruning, extending, inserting and folding together leave the tree that answers as the compaction should. |
| `Installs.InstalledTables` | src/storage/lsm.rs:809-899 | No table is lost or duplicated: installed and taken tables are the old ones and the new. |
| `Installs.InstalledLive` | src/storage/lsm.rs:828-899 | Runs stay newest first, non-empty, with at least one unit and below the next sequence number. |
| `Installs.InstalledSound` | src/storage/lsm.rs:828-899 | Every run of the installed levels ascends and its tables do not overlap. |
| `Disks.RebuildsLevels` | src/storage/lsm.rs:467-486 | Grouping the manifest by level and sorting by sequence number rebuilds exactly the levels it was written from. |
| `Disks.ReplayAscends` | src/storage/lsm.rs:488-497 | Replaying any log gives an ordered memtable. |
| `Commits.ReopenFindsTree` | src/storage/lsm.rs:460-547 | A directory that stands for a tree opens as that tree, run by run. |
| `Commits.ReopenedStands` | src/storage/lsm.rs:460-547 | What was found stands for the same directory, with the same answers. |
| `Commits.WritingKeepsStanding` | src/storage/lsm.rs:1210-1258 | Creating or filling a file under a number not yet committed cannot disturb a live one. |
| `Commits.RemovingKeepsStanding` | src/storage/lsm.rs:903-911 | Deleting a file no live table uses keeps the directory standing. |
| `Commits.SweepingKeepsStanding` | src/storage/lsm.rs:531-547 | Deleting any set of files that the manifest does not name, such as each stage of the startup sweep, removes nothing live. |
| `Commits.SweptIsNamed` | src/storage/lsm.rs:531-547 | What the sweep leaves is exactly the tables of the tree the directory stands for. |
| `Commits.NamedFilesExist` | src/storage/manifest.rs:178-183 | Every file the manifest names exists. |
| `Commits.CommittedManifestLoads` | src/storage/manifest.rs:89-175 | The manifest of any tree a directory stands for survives being printed and parsed, its file names included. |
| `Manifests.StoredLoads` | src/storage/manifest.rs:89-175 | What store prints, load parses back: header, sequence number, runs with their files, checksum line. |
| `Manifests.FilenamesAreDistinct` | src/storage/manifest.rs:190-192 | Different (level, sequence, part) never share a file name, although the padding does not bound the numbers. |
| `Manifests.FilenameIsWord` | src/storage/manifest.rs:190-192 | A file name survives being written to the manifest and split at whitespace. |
| `Texts.NumberRoundTrip` | src/storage/manifest.rs:194-199 | Every printed number parses back, padded or not, in any base up to sixteen. |
| `Texts.FieldsOfJoined` | src/storage/manifest.rs:112-140 | Words joined by spaces split back into themselves. |
| `Merges.MergeIsNewest` | src/storage/merge.rs:129-157 | The merge strictly ascends and holds for each key exactly the newest source entry, minus tombstones when they are dropped. |
| `Merges.AscendingIsUnique` | src/storage/merge.rs:129-157 | There is only one ascending list with given lookups, so any merge is the merge. |
| `Merges.MergeIterator.constructor` | src/storage/merge.rs:89-109 | Asking every source once sets up exactly the merge of the sources. |
| `Merges.MergeIterator.Next` | src/storage/merge.rs:132-156 | Until a source fails, next yields the head of what is left of the merge and leaves its tail; a failure is reported at the next call. |
| `Merges.MergeIterator.DiscardShadowed` | src/storage/merge.rs:141-149 | Popping the entries under the winning key takes that key off every source that has it, refilling as it goes. |
| `Merges.MergeIterator.TakeAll` | src/storage/merge.rs:138-149 | Popping the winner and everything it shadows takes one key off every source that has it, and leaves less to merge. |
| `Merges.MergeIterator.Refill` | src/storage/merge.rs:112-126 | A refill moves one source forward and latches its failure. |
| `Merges.Drain` | src/storage/merge.rs:129-157 | Draining gives the whole merge, or before a failure a prefix of the merge under any continuation of the failed sources. |
| `Merges.WinnerComesFirst` | src/storage/merge.rs:43-52 | The heap order by key, then by source, pops the newest entry of the least key. |
| `MemTables.MemTable.InsertEntry` | src/storage/memtable.rs:110-133 | An insert changes one key, answers what it replaced, and keeps the size budget equal to the cost of the entries. |
| `MemTables.LookupInsert` | src/storage/memtable.rs:110-133 | An insert changes what one key maps to and nothing else. |
| `MemTables.ChargeInsert` | src/storage/memtable.rs:110-133 | Swapping the old charge for the new keeps the running total exact. |
| `MemTables.NoUnderflow` | src/storage/memtable.rs:116-130 | The saturating subtraction never saturates. |
| `SSTableWriters.WriteTable` | src/storage/sstable.rs:179-328 | Any strictly ascending list, with any block target and the filter on or off, is written as a file; if the list is small, that file opens as a table standing for the list and answers every lookup as the list does. |
| `SSTableWriters.SmallFits` | src/storage/sstable.rs:179-328 | However a small list is cut into blocks, no length field overflows: small means that every entry is within the reader's limit and that encoded bytes plus seven bytes an entry and a checksum stay below 4 GiB. |
| `TableSizes.CutIsSmall` | src/storage/lsm.rs:1237-1241 | A file that was under a target of at most 64 MiB until its last entry holds a small list. |
| `TableSizes.LoggedIsReadable` | src/storage/wal.rs:158-175 | Whatever the log accepts is within the table reader's limit, so every record the engine writes can be read back. |
| `SSTableWriters.SSTableWriter.Append` | src/storage/sstable.rs:179-228 | Keys must strictly ascend and lengths must fit their field; otherwise nothing changes. |
| `SSTableWriters.SSTableWriter.FlushBlock` | src/storage/sstable.rs:234-257 | A flushed block is appended with its checksum and one index entry; an empty block writes nothing. |
| `SSTableWriters.SSTableWriter.Finish` | src/storage/sstable.rs:267-328 | Data, index, filter and footer are laid out from exactly the entries appended, every block but the last closed at the target and not before. |
| `SSTableWriters.BuildFilter` | src/storage/sstable.rs:285-307 | The filter passes every key of the table. |
| `SSTables.OpensAsWritten` | src/storage/sstable.rs:416-470 | Writing then opening finds the blocks, the index, the filter, the count and the largest key that were written. |
| `SSTables.GetIsLookup` | src/storage/sstable.rs:474-511 | Despite block splitting, the sparse index, the early end of the scan and the filter, get is the lookup in the written list. |
| `SSTables.BlockDecidesLookup` | src/storage/sstable.rs:506-511 | The last block that starts at or before a key decides the lookup of that key. |
| `SSTables.ScanIsLookup` | src/storage/sstable.rs:488-498 | Stopping at the first larger key loses nothing in an ascending block. |
| `SSTables.SSTableIter.Next` | src/storage/sstable.rs:635-665 | One step yields the head of what is left; a block that cannot be read gives one error and is skipped. |
| `SSTables.IterationIsTheList` | src/storage/sstable.rs:522-547 | Iterating yields the written list, and a range scan its part from the key on. |
| `SSTableFormat.DecodesBlock` | src/storage/sstable.rs:695-729 | A block of readable entries decodes to them. |
| `SSTableFormat.DecodesIndex` | src/storage/sstable.rs:731-763 | An index decodes to itself. |
| `SSTableFormat.DecodesFooter` | src/storage/sstable.rs:344-382 | A footer decodes to itself. |
| `SSTableFormat.ReadsChecked` | src/storage/sstable.rs:673-693 | A checksummed section reads back wherever it sits. |
| `SSTableFormat.OversizedEntryIsUnreadable` | src/storage/sstable.rs:695-729 | An entry the writer accepts is read back if and only if its key and value are within the reader limit. |
| `SSTableFormat.OneByteTooMany` | src/storage/sstable.rs:695-729 | A concrete entry: with a key one byte over the limit it is written and does not decode, with one byte less it does. |
| `Blooms.Filter.HeldMeansContained` | src/storage/bloom.rs:91-106 | No inserted hash is ever reported absent. |
| `Blooms.Filter.ContainedIsAccountedFor` | src/storage/bloom.rs:103-106 | Each probe of a positive answer was set by some inserted hash. |
| `Blooms.BloomFilter.InsertHash` | src/storage/bloom.rs:91-95 | After an insert exactly the bits probed by some inserted hash are set. |
| `Blooms.DecodesExactlyEncodings` | src/storage/bloom.rs:123-153 | Decoding accepts exactly the encodings of well-formed filters and inverts them. |
| `Blooms.WithBitSetsOne` | src/storage/bloom.rs:91-95 | Setting a bit sets that bit and leaves the others. |
| `Wals.TornLogReplaysWholeRecords` | src/storage/wal.rs:229-253 | For every byte prefix of a log, replay returns exactly the records wholly inside it. |
| `Wals.ReplayIsLongestLog` | src/storage/wal.rs:229-253 | For any bytes at all, the verified part is exactly the log of the replayed records, and what follows does not start with a record. |
| `Wals.ReadsRecord` | src/storage/wal.rs:282-330 | An appended record reads back whatever follows it. |
| `Wals.ReadBytesAreRecord` | src/storage/wal.rs:282-330 | Whatever reads as a record is the encoding of that record. |
| `Wals.PrefixFree` | src/storage/wal.rs:158-202 | No record is a proper prefix of another. |
| `Wals.DamagedPayloadStopsReplay` | src/storage/wal.rs:298-307 | A payload changed within four consecutive bytes stops replay exactly at that record. |
| `Wals.CrashKeepsSyncedRecords` | src/storage/wal.rs:158-212 | A process crash keeps every record synced before it and replays nothing out of order. |
| `Wals.RecoveredLogGrows` | src/storage/wal.rs:112-144 | After recovery, further appends replay as the survivors followed by the new records. |
| `Wals.Wal.Append` | src/storage/wal.rs:158-202 | Either the record is refused and nothing changes, or it is the next record; under every-write syncing it is on disk at once. |
| `Wals.Wal.Sync` | src/storage/wal.rs:209-212 | After a sync the file holds the whole log. |
| `Wals.DecodesPayload` | src/storage/wal.rs:309-329 | A payload decodes to the record it encodes. |
| `Wals.Replay` | src/storage/wal.rs:229-253 | The replay loop computes the longest log and counts the bytes it discards. |
| `Wals.Recover` | src/storage/wal.rs:112-144 | Opening a log cuts its torn tail off and continues after the survivors; a missing file is an empty log. |
| `ValueLogs.PointersStayReadable` | src/storage/vlog.rs:216-245 | Every position given out reads its value, however much is appended later. |
| `ValueLogs.PointersSurviveCrash` | src/storage/vlog.rs:124-180 | After a crash at any byte and reopening, the values wholly on disk stay readable under their positions through all later appends. |
| `ValueLogs.TornLogKeepsWholeRecords` | src/storage/vlog.rs:150-180 | Opening any prefix keeps exactly the records wholly inside it. |
| `ValueLogs.ReadIsRecord` | src/storage/vlog.rs:216-245 | Whatever reads at an offset is an encoded record. |
| `ValueLogs.PointerRoundTrip` | src/storage/vlog.rs:81-101 | An encoded position decodes to itself. |
| `ValueLogs.ValueLog.Append` | src/storage/vlog.rs:184-210 | The value lands at the old end of the log, where the position returned finds it; a value too long for its length field is refused. |
| `ValueLogs.ScanIntactPrefix` | src/storage/vlog.rs:150-180 | The scan finds the end of the longest run of whole records. |
| `ValueLogs.Open` | src/storage/vlog.rs:124-148 | Opening over any bytes leaves a valid log of the intact prefix. |
| `ValueLogs.StoreValue` | src/storage/lsm.rs:569-628 | A stored value, separated or inline, loads back now and after any further appends; it is refused exactly if it is separated and too long. |
| `SeparatedTrees.SeparatedTree.Put` | src/storage/lsm.rs:550-599 | With values separated or not: an accepted put makes the key load as the value and every other key that loaded go on loading as it did, also on a tree that went on after a failed compaction; if a compaction fails, all of that is true but for the keys it forgets, and the directory opens to the readings from after. A crash at any byte of the value-log record leaves the readings from before, one at any later step of the directory those from after. |
| `SeparatedTrees.SeparatedTree.Delete` | src/storage/lsm.rs:631-634 | The key loads as absent, every other key as before, but for the keys that a failed compaction forgets; every step of the directory opens to the readings from after. |
| `SeparatedTrees.SeparatedTree.Get` | src/storage/lsm.rs:660-679 | A lookup loads what the tree stores, and never fails on a tree that opened so and lost nothing. |
| `SeparatedTrees.SeparatedTree.Iter` | src/storage/lsm.rs:689-709 | A scan lists exactly the keys that have a value, in strictly ascending order, each with the value a lookup loads; it fails exactly if one of these values does not load. |
| `SeparatedTrees.SeparatedTree.RangeFrom` | src/storage/lsm.rs:720-749 | A range scan does the same from its start on, and fails exactly if a value at or after the start does not load. |
| `SeparatedTrees.SeparatedTree.Open` | src/storage/lsm.rs:460-529 | A directory and a value log, as a crash left them, open to their readings once the torn tail of the log is cut. |
| `Crc32s.UpdateIsFeed` | src/storage/crc32.rs:46-52 | Byte at a time computes what the shift register of section 8 of RFC 1952 computes bit by bit. |
| `Crc32s.TableStep` | src/storage/crc32.rs:46-52 | One table lookup and one shift replace eight register shifts. |
| `Crc32s.BuildTable` | src/storage/crc32.rs:19-37 | Every table entry is eight shifts of its index. |
| `Crc32s.UpdateWithTable` | src/storage/crc32.rs:46-52 | The table-driven loop computes the register state for messages of any length. |
| `Crc32s.UpdateConcat` | src/storage/crc32.rs:71-83 | Hashing in pieces is hashing the whole, for any split. |
| `Crc32s.Crc32.Add` | src/storage/crc32.rs:76-78 | Adding a piece extends the message hashed so far. |
| `Crc32s.Crc32.Finish` | src/storage/crc32.rs:71-83 | Whatever pieces were added, finish is the checksum of their concatenation. |
| `Crc32s.ChecksumIsFinished` | src/storage/crc32.rs:40-56 | Preset and complement as the standard requires. |
| `Crc32s.BurstIsDetected` | src/storage/crc32.rs:40-56 | Any change confined to four consecutive bytes of an equal-length message changes the checksum. |
| `RaBitQ.BestGridPoint` | src/ann/rabitq.rs:264-329 | For every vector and every bit width, the returned point maximises the cosine over all grid points, whatever order ties are popped in, with the running inner product and squared norm belonging to it. |
| `RaBitQ.RoundingAtCriticalScaleWins` | src/ann/rabitq.rs:248-263 | The rounding at the scale |y|^2/<y,o> is at least as good as y, for every grid point y. |
| `RaBitQ.CoverageAdvances` | src/ann/rabitq.rs:293-320 | Between two consecutive critical values the point held there is the rounding of every scale. |
| `RaBitQ.SweepIsOptimal` | src/ann/rabitq.rs:264-329 | Once no critical value is left, no grid point beats the best one kept. |
| `RaBitQ.ObjectiveOrder` | src/ann/rabitq.rs:311-319 | Comparing inner/sqrt(norm) is the square-root-free comparison used in the proof. |
| `RaBitQ.RoundingMinimises` | src/ann/rabitq.rs:248-263 | Rounding each coordinate minimises the distance to a scaled vector over the whole grid. |
| `RaBitQ.MoveTracks` | src/ann/rabitq.rs:297-301 | The constant-time updates of the inner product and the norm track the moved point. |
| `RaBitQCodes.Encode` | src/ann/rabitq.rs:179-246 | The code of an off-centroid vector has the largest cosine of all codes of that width, and stores that cosine, its norm and the distance; on the centroid it is the fixed code. |
| `RaBitQCodes.SignsCanOnlyLose` | src/ann/rabitq.rs:226-238 | No choice of signs beats the signs of the vector. |
| `RaBitQCodes.NoCodeHasLargerCosine` | src/ann/rabitq.rs:179-246 | The optimal magnitudes give the optimal code over all signs and levels. |
| `RaBitQCodes.OffsetCorrection` | src/ann/rabitq.rs:370-383 | The unsigned code and the offset correction give back the signed inner product. |
| `RaBitQCodes.OwnCodeEstimatesZero` | src/ann/rabitq.rs:370-394 | A vector queried against its own code is estimated at squared distance exactly zero. |
| `RaBitQCodes.DecompositionIsDirectEstimate` | src/ann/symphony.rs:244-280 | The precomputed decomposition equals the direct estimator for every vertex, neighbour and query, and answers infinity in exactly the three guarded cases. |
| `RaBitQCodes.DecompositionOfNumerator` | src/ann/symphony.rs:152-216 | Rotating the raw query once and subtracting the precomputed centroid half is rotating the normalised residual. |
| `Rotations.ApplyInverseIsLinear` | src/ann/rotation.rs:126-136 | The inverse rotation is linear. |
| `Rotations.Rotation.ApplyInverseInPlace` | src/ann/rotation.rs:126-136 | Accumulating scaled rows computes the product with the transpose. |
| `EcoTune.SolveState` | src/storage/compaction/ecotune.rs:319-372 | The memoised recursion returns the best score over all plan trees and records a decision that realises it; the table only grows. |
| `EcoTune.TryWidths` | src/storage/compaction/ecotune.rs:354-368 | After trying every width no plan of any shape beats the best one kept. |
| `EcoTune.MergeOfBestParts` | src/storage/compaction/ecotune.rs:354-368 | No merge of a given width beats the merge of its two best parts. |
| `EcoTune.Solve` | src/storage/compaction/ecotune.rs:181-197 | No plan for a round scores more than the root, the pending global merge accounted for. |
| `EcoTune.Walk` | src/storage/compaction/ecotune.rs:264-316 | The walk over the decisions lists the merges of the best plan. |
| `EcoTune.Schedule` | src/storage/compaction/ecotune.rs:238-251 | The schedule realises a plan that no other plan beats; positions ascend, merges nest or avoid each other, and the single global merge comes last, at R, carrying C*R + R units. |
| `EcoTune.TimelineIsWellFormed` | src/storage/compaction/ecotune.rs:264-316 | The same for every plan tree, best or not. |
| `EcoTune.NewestRunsByUnits` | src/storage/compaction/mod.rs:168-197 | The loop takes the newest runs up to the unit count, and nothing when that is a single run. |
| `EcoTune.ExactPrefixIsTaken` | src/storage/compaction/mod.rs:168-197 | When some newest runs carry exactly the requested units, exactly those are taken. |
| `AlphaSets.NormaliseIsCanonical` | src/ann/deg/interval.rs:110-122 | Normalising any pieces gives the canonical set with their members. |
| `AlphaSets.CanonicalIsUnique` | src/ann/deg/interval.rs:110-122 | Two canonical sets with the same members are the same list of intervals. |
| `AlphaSets.UnionIsOr` | src/ann/deg/interval.rs:125-129 | Union is pointwise or, and canonical. |
| `AlphaSets.IntersectIsAnd` | src/ann/deg/interval.rs:132-147 | Intersection is pointwise and, and canonical. |
| `AlphaSets.ComplementIsClosureOfGaps` | src/ann/deg/interval.rs:150-167 | The complement is canonical and holds exactly what lies on the closure of a gap. |
| `AlphaSets.MeasuresAddUp` | src/ann/deg/interval.rs:101-107 | The measures of a set and its complement add up to one. |
| `AlphaSets.DoubleComplement` | src/ann/deg/interval.rs:150-167 | Complementing twice drops exactly the zero-width pieces. |
| `AlphaSets.Single` | src/ann/deg/interval.rs:64-74 | A single interval is clamped to [0,1] and empty when reversed or outside. |
| `AlphaSets.NormaliseLoop` | src/ann/deg/interval.rs:110-122 | The sort-and-merge loop computes the normal form. |
| `AlphaSets.IntersectLoop` | src/ann/deg/interval.rs:132-147 | The nested loop computes the intersection. |
| `AlphaSets.ComplementLoop` | src/ann/deg/interval.rs:150-167 | The cursor loop computes the complement. |
| `Pruning.SolveIsExact` | src/ann/deg/pruning.rs:102-145 | The closed-form case analysis contains every alpha with alpha*a < b and none with alpha*a > b. |
| `Pruning.PrunedByIsExact` | src/ann/deg/pruning.rs:151-168 | The range contains every alpha at which the neighbour prunes, and wherever it holds the neighbour prunes at least in a tie. |
| `Pruning.PrunesInside` | src/ann/deg/pruning.rs:151-168 | A strict pruning at the end of an interval happens inside it too. |
| `Selection.ActiveRangeIsExact` | src/ann/deg/select.rs:60-79 | Inside an active range no kept neighbour prunes, with no boundary exceptions; outside it some kept neighbour does, at worst in a tie. |
| `Selection.SelectionIsExact` | src/ann/deg/select.rs:47-96 | Every kept edge has an exact range wide enough to keep, every visited candidate was kept or left too little, and all layers are visited unless the cap is reached. |
| `Selection.SelectNeighbours` | src/ann/deg/select.rs:47-96 | The nested loops with their early exits compute that selection. |
| `Selection.ConsiderCandidate` | src/ann/deg/select.rs:60-88 | The inner loop with its break computes the pruned range over all kept neighbours. |
| `Selection.FullStaysFull` | src/ann/deg/select.rs:62-77 | Stopping once everything is pruned loses nothing. |
| `Pareto.MarkFrontier` | src/ann/deg/pareto.rs:94-145 | The sweep marks exactly the undominated points, twins included. |
| `Pareto.SweepDecides` | src/ann/deg/pareto.rs:94-145 | Comparing a pair with the least second coordinate so far decides whether anything dominates it. |
| `Pareto.SplitFrontier` | src/ann/deg/pareto.rs:94-145 | Frontier and rest in input order. |
| `Pareto.FrontierAttainsMinimum` | src/ann/deg/pareto.rs:66-84 | Theorem 4.1: at every alpha in [0,1] one frontier point is no farther than every point. |
| `Pareto.DominatedByFrontier` | src/ann/deg/pareto.rs:66-84 | Every dominated point is dominated by a frontier point. |
| `Pareto.LayersAreProper` | src/ann/deg/pareto.rs:66-84 | Layers are antichains, each point of a layer is dominated from the layer before, no point is taken twice, and only the last layer reaches the limit. |
| `Pareto.FrontierLayers` | src/ann/deg/pareto.rs:66-84 | The loop computes those layers. |
| `Gps.Search` | src/ann/deg/gps.rs:52-121 | Terminates; the result is the layering of everything discovered, its ids are distinct, and when the pool never fills it holds exactly the vertices below the limit that the seeds reach. |
| `Gps.Expand` | src/ann/deg/gps.rs:104-116 | Expanding a layer marks its vertices, pulls in every neighbour below the limit and lists each vertex once. |
| `Gps.UnfilledPoolFindsReachable` | src/ann/deg/gps.rs:52-121 | Then the ids found are exactly the vertices below the limit that the seeds reach, each once. |
| `Gps.NothingLost` | src/ann/deg/gps.rs:81-119 | Below the pool size, layering keeps everything discovered. |
| `Gps.ResultIdsAreDistinct` | src/ann/deg/gps.rs:52-121 | Ids in the result are distinct, filled pool or not. |
| `BeamSearch.Problem.SearchInner` | src/ann/deg/graph.rs:494-579 | With or without the early exit the loop goes through the same states and returns the same answer. |
| `BeamSearch.Problem.MeetOne` | src/ann/deg/graph.rs:538-572 | Meeting one vertex has the same effect with the early exit as without it. |
| `BeamSearch.Problem.AnswerIsNearestVisited` | src/ann/deg/graph.rs:494-579 | Every answer is a reachable vertex at its true distance, nothing visited and left out is strictly nearer, and a beam that never fills has found everything reachable. |
| `BeamSearch.Problem.WideBeamIsExact` | src/ann/deg/graph.rs:494-598 | With room for every reachable vertex the answer is the exact sorted top k of the reachable set. |
| `BeamSearch.Problem.BoundIsSound` | src/ann/deg/hybrid.rs:153-177 | The first modality alone bounds the hybrid distance from below, which is what the early exit rests on. |
| `BeamSearch.Problem.RunKeepsNearest` | src/ann/deg/graph.rs:531-573 | At every step no vertex left out of the results is strictly nearer than one kept. |
| `BeamSearch.Problem.RunSettles` | src/ann/deg/graph.rs:531-573 | When the loop ends, either something was turned away or every edge of every visited vertex has been followed. |
| `BeamSearch.Search` | src/ann/deg/graph.rs:467-492 | Clamping alpha and widening the beam to k give a valid problem, and its answer is returned. |
| `Neighbours.BestSortedIsTopK` | src/ann/brute_force.rs:145-181 | Any best choice of k, listed in order, is the first k of everything sorted by distance and id. |
| `Neighbours.TopKIgnoresOrder` | src/ann/brute_force.rs:145-181 | The answer depends on what was scanned, not on the order. |
| `Neighbours.Offer` | src/ann/brute_force.rs:160-172 | The bounded heap holds a best choice of k of everything offered. |
| `BruteForce.BruteForceIndex.Search` | src/ann/brute_force.rs:145-181 | The bounded scan answers exactly the first k of all vectors sorted by distance and id. |
| `BruteForce.BruteForceIndex.Add` | src/ann/brute_force.rs:101-110 | The flat buffer gains one vector and one id. |
| `Ivf.IvfIndex.SearchExhaustive` | src/ann/ivf.rs:296-298 | Answers exactly the first k of all indexed codes sorted by estimate and id. |
| `Ivf.Snapshot.AllProbedScansEverything` | src/ann/ivf.rs:296-298 | Probing as many clusters as there are scans each entry exactly once. |
| `Ivf.Snapshot.ScannedIgnoresOrder` | src/ann/ivf.rs:189-233 | Probing the same clusters in another order scans the same entries. |
| `Ivf.IvfIndex.Search` | src/ann/ivf.rs:189-233 | The answer is the first k of the estimates in the lists of the nearest clusters. |
| `Ivf.IvfIndex.NearestCentroids` | src/ann/kmeans.rs:71-82 | As many probes as asked for and as there are clusters, each cluster once with its distance, ascending by distance and then position, and no cluster left out comes before one that is probed. |
| `Ivf.IvfIndex.Insert` | src/ann/ivf.rs:266-281 | The vector joins exactly one list, that of its nearest centroid, encoded against it. |
| `Ivf.Build` | src/ann/ivf.rs:92-136 | Training on all the data or on a strided sample, then indexing puts every position of the data in exactly one list, and no nearest assignment of the training vectors to the index's centroids costs more than the last inertia of training. |
| `Ivf.TrainingSet` | src/ann/ivf.rs:301-323 | A sample smaller than the data has exactly the size asked for, its vectors taken at equal strides from the offset on; otherwise it is all the data. |
| `KMeans.Train` | src/ann/kmeans.rs:91-190 | The inertia never increases between iterations, revivals included, and the one returned is at least that of the returned centroids under any nearest assignment. |
| `KMeans.Update` | src/ann/kmeans.rs:150-183 | Moving centroids to means and reviving empty clusters never raises the cost. |
| `KMeans.MeanMinimises` | src/ann/kmeans.rs:150-182 | The mean minimises the sum of squared distances. |
| `KMeans.NearestCostsLeast` | src/ann/kmeans.rs:121-143 | The nearest assignment costs no more than any other. |
| `KMeans.AssignAll` | src/ann/kmeans.rs:121-143 | Every point goes to its first nearest centroid, the inertia is their total cost, and changed says whether anything moved. |
| `KMeans.FarthestPoint` | src/ann/kmeans.rs:245-265 | The first point farthest from its centroid is found. |
| `KMeans.Tally` | src/ann/kmeans.rs:150-160 | One pass gives each cluster the sum and the number of its members. |
| `KMeans.CostSplits` | src/ann/kmeans.rs:150-182 | Moving one centroid changes the cost by the share of its own members. |
| `KMeans.PinnedCostsNoMore` | src/ann/kmeans.rs:163-176 | Points moved onto a revived centroid cost nothing. |
| `KMeans.Assign` | src/ann/kmeans.rs:55-68 | The first centroid at the smallest distance, with that distance. |

## Left out

Numbers and data

- Floating point: `f32` and `f64` are mathematical reals. Rounding, NaN ordering and infinities other than the
  estimator's own INFINITY are not modelled. A square root is a parameter `root` with `root(x) * root(x) == x`.
- Random numbers: rotations, the offset of a training sample and the initial centroids of k-means++ are parameters.
- Flat buffers of vectors are sequences of vectors, except in `BruteForce`, where the flat buffer is kept.
- Heaps are multisets or maps from which a least or greatest entry is taken; which of equal ones comes first is open.
- Bloom filter sizing from a false-positive rate is a parameter (`src/storage/bloom.rs:63-80`).
- Integer widths are modelled where bytes are written. Sequence numbers, level numbers and counters in the engine do
  not wrap.

The engine

- Real files, directories, `fsync` and the page cache: the disk is a map from names to contents, a manifest that
  changes at once, and a log. Scratch files of the manifest are not part of the disk.
- In `lsm.dfy` a table is the list of entries its file stands for, the manifest is its parsed value and the log is the
  list of its records. The byte-level modules prove that writing and reading those bytes gives exactly these values.
- The log is synced on every write in `Runs`; the buffered policy is treated in `Wals` only.
- A file being written holds a prefix of its entries; a write torn inside an entry is not a state of the disk.
- Of failures, only those of reads during a compaction are modelled. Writing, syncing, renaming and deleting succeed
  until the process dies.
- Power loss between an unsynced value-log record and its synced log record is not treated, only crashes of the process.
- On a `SeparatedTree` that went on after a failed compaction, what loaded goes on loading; whether the older values
  that the failure brings back load, and what its crashes leave of the loaded values, is not followed.
- Growth schemes (`src/storage/growth/`): when they ask for work and for which levels is left open; only the shape of
  their requests is used.
- Switching the merge policy of an open tree: its consequences for one compaction are in `UnsafePlans`; in `Runs` the
  policy is fixed.
- Statistics, byte counters and read counters.
- Coalescing after a partial compaction that took the middle of a run: the ranges then overlap and the runs stay
  apart. Reads are right, which is all that is claimed.

Weaker than they might be

- LsmEngines.LsmTree.CompactUntilQuiet: that planned jobs are safe is a premise here.
  `LsmEngines.FluidPlannerIsSafeExactlyWhen` says for leveling, tiering and their mixtures when they are.
- LsmEngines.LsmTree.WriteRun: that the files written open again is promised up to a file size target of 64 MiB; the
  source's default is 8 MiB, and it has no upper bound.
- BeamSearch.Search: the graph is given. How `DegIndex::build` links it is modelled only through the selection of
  neighbours and the frontier search.

Other parts of the repository

- `src/engine.rs` and its vector store, the single-modality graph of `src/ann/graph.rs`, workload generators,
  dataset readers, benchmarks, latency percentiles, the Lerp learner and its propagation
  (`src/storage/compaction/lerp.rs`, `propagation.rs`).
- Statistical claims: unbiasedness, recall, false-positive rates.
