# Verified models of the MUSE operating system and its compilers

Dafny models of the parts of the repository where the reasoning is hardest: the write-ahead journal and
the file system of `muse-riscv-os`, its multi-hart scheduler, its TCP, its kernel heap, block cache and
control groups, two pieces of its user-land cryptography, the structural trait prover of the `aeroc`
compiler, and substitution, unification and reduction in the `muse-lean` proof checker. `dafny verify
dfyconfig.toml` checks everything.

Each component is modelled in the form its code has. Objects that the code changes in place are classes
(`JournalLog.Log`, `HartScheduler.Scheduler`, `TcpSocket.Sock`, `FsDisk.Disk`, `HeapAlloc.Heap`,
`BlockCache.Cache`, `CgroupTable.Groups`, `ShaStream.Sha256`, `TraitProver.Prover`, `LeanMatch.Elab`)
whose methods are proved against specification functions; the lemmas over whole runs are about those
functions. Everything that comes from outside (the device's answers, power cuts, the network, the order in
which harts take a lock, clock ticks) is a parameter or an event of a transition system, and the theorems
hold for every choice.

How the modules fit together:

- `Journal*`: `JournalDisk` says what sectors hold and what a replay means; `JournalRing` and
  `JournalWindow` read the ring as a window over a history; `JournalMachine` is the transition system of
  mounts, calls, shutdowns and power cuts, with the promise `Spec` beside it; `JournalDurable`,
  `JournalSkipped`, `JournalSpared` and `JournalRuns` carry the invariant over every run, devices with a
  skipped number included; `JournalFindings`, `JournalInterrupted`, `JournalStale`, `JournalValve`,
  `JournalValveRun`, `JournalLate` and `JournalLateRun` are the places where the promise fails, with exact
  conditions; `JournalLog` and `JournalReplay` are `jnl.rs` as written; `JournalRebuild` ties the rebuild
  of the bitmap to the guard the machine relies on.
- `Sched*`: state, picks, the transition system, the invariant, the process tree, what every kind of step
  does in a run (`SchedSteps`), exits and those who wait for them (`SchedWaits`, `SchedInitRun`), and
  `Scheduler`, the code of `task/mod.rs`.
- `Tcp*`: segments and control blocks, one connection over a network that loses, repeats, delays and
  reorders, what both applications see, what each delivery does exactly (`TcpOpens`, `TcpArrives`), that
  everything can still arrive (`TcpReaches`), what a close costs, and the code of `tcp.rs`.
- `Fs*`: trees of block numbers, single links, bytes of files, the byte layout, the code of `disk.rs`
  (allocation, reading, writing, freeing, rebuilding, directories) and the image `mkfs` starts from.
- `Heap*`, `Gcm*`, `ShaStream`, `BlockCache`, `Cgroup*`, `Trait*`, `Lean*`: a few files per component.

## Model

| member | source | states |
|---|---|---|
| JournalRuns.RunKeepsBlocks | os/muse-riscv-os/kernel/src/fs/jnl.rs:20-32 | in every run from a fresh image, with any mounts, calls, shutdowns and power cuts between sector writes, the next mount finds every block with its last completed value or one the interrupted call wrote to it, never an older one; left out of the runs are exactly the cuts shown to break this now or later: those of a recovery that `LeavesStale` names, those of the chunk valve that `ValveLoses` names, and those of a replay that are not `ReplayCutSafe` |
| JournalRuns.AtRest | os/muse-riscv-os/kernel/src/fs/jnl.rs:26-32 | between calls the home sectors, what a replay would make of the device and the promise are the same blocks |
| JournalRuns.MountShowsPromise | os/muse-riscv-os/kernel/src/fs/disk.rs:82-106 | a mount, however often it was interrupted before, shows its caller exactly the promised blocks |
| JournalRuns.IdsNameOneCall | os/muse-riscv-os/kernel/src/fs/jnl.rs:267-281 | transaction ids restart at 1 on every mount, and still one id of a generation never names records of two calls |
| JournalRuns.NoOldIds | os/muse-riscv-os/kernel/src/fs/disk.rs:89-105 | when system calls can begin, no slot of the ring holds a tagged record or a commit of an earlier life |
| JournalRebuild.Recover | os/muse-riscv-os/kernel/src/fs/disk.rs:118-204 | the rebuild's block writes are events the journal machine allows, one record each, and there are enough of them to use every slot of the ring before the flag is cleared |
| JournalMachine.ReplayIdempotent | os/muse-riscv-os/kernel/src/fs/jnl.rs:1-5 | a replay cut after any number of writes and run again gives what the whole replay gives, and that is the newest applicable record of every sector |
| JournalMachine.MaxNumIs | os/muse-riscv-os/kernel/src/fs/jnl.rs:171-205 | the highest number found in the slots is the last number spent, so numbering goes on where it stopped |
| JournalRing.MembersInWindow | os/muse-riscv-os/kernel/src/fs/jnl.rs:28-36 | all members of a committed transaction are found in the ring if and only if its first record is still there: transactions drop out of the ring whole |
| JournalWindow.ShadowKept | os/muse-riscv-os/kernel/src/fs/jnl.rs:29-32 | overwriting the oldest slot never uncovers an older value of a block that a newer applicable record had replaced |
| JournalStale.RecoveryCutExact | os/muse-riscv-os/kernel/src/fs/disk.rs:89-106 | a power cut during recovery is safe for every later run if and only if the flag on the device reads set, or the cut does not leave a record of a value its block does not hold |
| JournalStale.RunRecoveryCutExact | os/muse-riscv-os/kernel/src/fs/disk.rs:89-106 | the same for every recovery of every run from a fresh image |
| JournalStale.CutOfRecoveryLosesBlock | os/muse-riscv-os/kernel/src/fs/disk.rs:89-106 | a run from a fresh image and its continuation in which such a cut makes a block show a value that was never written to it, with nothing in flight |
| JournalFindings.ReplayCutsExact | os/muse-riscv-os/kernel/src/fs/jnl.rs:340-434 | on any device, a replay may be interrupted anywhere if and only if wherever the superblock it re-applies reads clean the rest of the replay changes nothing |
| JournalStale.RunMountable | os/muse-riscv-os/kernel/src/fs/jnl.rs:340-413 | every device a run leaves switched off meets what `JournalLog.Log.Mount` asks: no number twice, and only records of blocks it has |
| JournalStale.RunReplayCutsExact | os/muse-riscv-os/kernel/src/fs/jnl.rs:340-434 | in every run, a replay may be interrupted anywhere if and only if no clean superblock is re-applied before another record |
| JournalInterrupted.InterruptedReplayLosesBlock | os/muse-riscv-os/kernel/src/fs/jnl.rs:338-340 | a run from a fresh image whose interrupted replay loses a completed block |
| JournalFindings.RollsBackExactly | os/muse-riscv-os/kernel/src/fs/jnl.rs:7-9 | an interrupted call is undone as a whole if and only if every block it changed since the last commit record still has an applicable record |
| JournalInterrupted.HalfACallSurvives | os/muse-riscv-os/kernel/src/fs/jnl.rs:7-9 | a run in which an interrupted call leaves one of its two blocks new and the other old |
| JournalValve.NextMountExact | os/muse-riscv-os/kernel/src/fs/jnl.rs:227-247 | the next mount after a cut between the chunk's commit record and the record numbered before it shows what it should if and only if, before the write, the record about to be overwritten is not the last one left that counts for its block, or holds a value the block may show |
| JournalLate.ValveCutExact | os/muse-riscv-os/kernel/src/fs/jnl.rs:227-247 | such a cut loses nothing at the next mount or at any later one if and only if, before the write, that holds and the record about to be overwritten is not an untagged one whose block has a newer surviving record with another value |
| JournalLate.RunValveCutExact | os/muse-riscv-os/kernel/src/fs/jnl.rs:227-247 | the same at every call of every run from a fresh image |
| JournalLate.FadingIsLost | os/muse-riscv-os/kernel/src/fs/disk.rs:82-106 | from a device whose skipped slot holds a record overtaken by newer ones, some sequence of mounts and power cuts during recovery brings the overtaken value back |
| JournalSpared.SoundKeeps | os/muse-riscv-os/kernel/src/fs/jnl.rs:210-263 | every event of the machine, the harmless cuts of the valve included, keeps the invariant of the runs and, if it is a power cut, the promise |
| JournalValveRun.ValveCutLosesBlock | os/muse-riscv-os/kernel/src/fs/jnl.rs:227-247 | a run from a fresh image in which such a cut brings back an older superblock at the next mount |
| JournalLateRun.ValveCutLosesBlockLater | os/muse-riscv-os/kernel/src/fs/jnl.rs:227-247 | a run from a fresh image in which the next mount shows every block as promised, and a power cut of that mount's recovery brings back an older value with nothing in flight |
| JournalLog.Log.Record | os/muse-riscv-os/kernel/src/fs/jnl.rs:210-263 | the sectors written, the device and the counters after one record, with the chunk valve |
| JournalLog.Log.WriteCommit | os/muse-riscv-os/kernel/src/fs/jnl.rs:308-334 | the commit record written, and nothing for id 0 |
| JournalLog.Log.Begin | os/muse-riscv-os/kernel/src/fs/jnl.rs:267-281 | the counters after opening a call |
| JournalLog.Log.Commit | os/muse-riscv-os/kernel/src/fs/jnl.rs:285-306 | the counters and sectors after closing a call, nested or empty ones included |
| JournalLog.Log.Write | os/muse-riscv-os/kernel/src/fs/blk.rs:146-166 | record first, home sector after it, for every state of the log |
| JournalLog.Log.Init | os/muse-riscv-os/kernel/src/fs/jnl.rs:126-165 | the generation adopted or stamped and the next number after the survivors |
| JournalLog.Log.Scan | os/muse-riscv-os/kernel/src/fs/jnl.rs:340-413 | staging by id, flattening and sorting yield the applicable slots, each once, in number order |
| JournalLog.Log.Replay | os/muse-riscv-os/kernel/src/fs/jnl.rs:340-434 | the home sectors written are a replay of the device, and the counter only moves forward |
| JournalLog.Log.Mount | os/muse-riscv-os/kernel/src/fs/disk.rs:85-98 | on any device with distinct numbers and records of its own blocks, the device and the log after a mount are those the transition system starts from |
| JournalLog.Log.Reset | os/muse-riscv-os/kernel/src/fs/jnl.rs:438-453 | one header write voids the ring |
| SchedRuns.ExactlyOnce | os/muse-riscv-os/kernel/src/task/mod.rs:1966-2098 | over every interleaving of any number of harts a pid is queued, current or in hand at most once in all; queued or in hand means runnable, running means current on exactly one hart, and no runnable task is lost |
| SchedRuns.OneHart | os/muse-riscv-os/kernel/src/task/mod.rs:2177-2251 | two harts never run one task |
| SchedRuns.GuardsNeverFire | os/muse-riscv-os/kernel/src/task/mod.rs:2177-2251 | the checks against double runs in `switch_to` and `schedule_point` never find anything |
| SchedRuns.IdleMeansEmpty | os/muse-riscv-os/kernel/src/task/mod.rs:781-806 | a hart goes idle only when no task is queued on any hart |
| SchedRuns.PidsNeverReused | os/muse-riscv-os/kernel/src/task/mod.rs:870-896 | once a task has been reaped its pid names nothing for the rest of the run |
| SchedRuns.ZombiesAreReapable | os/muse-riscv-os/kernel/src/task/mod.rs:2480-2622 | a zombie is never queued, keeps no children, and its parent is there and lists it exactly once |
| SchedWaits.ExitDoes | os/muse-riscv-os/kernel/src/task/mod.rs:1460-1553 | in every run an exit leaves a zombie with the code it was given and no children, hands its children to init, makes its parent runnable where a hart will find it if and only if that sleeps in `waitpid`, and disturbs nobody else, a parent asleep for another reason included |
| SchedWaits.NoLostWakeup | os/muse-riscv-os/kernel/src/task/mod.rs:2593-2609 | a task that went to sleep in `waitpid` because no child it asked for was a zombie, and still sleeps there, still has no such child; for init, as long as nobody hands it a zombie |
| SchedWaits.NobodyWaitsForZombie | os/muse-riscv-os/kernel/src/task/mod.rs:2480-2622 | in every run whose sleeps in `waitpid` are calls of it, no task but init sleeps there beside a zombie it asked for |
| SchedWaits.InitMissesExactly | os/muse-riscv-os/kernel/src/task/mod.rs:1503-1521 | an exit leaves init asleep beside a zombie child if and only if the exiting task is neither init nor a child of init and leaves a zombie child |
| SchedInitRun.InitSleepsBesideZombie | os/muse-riscv-os/kernel/src/task/mod.rs:1503-1521 | a run in which that happens |
| SchedWaits.ReapedCode | os/muse-riscv-os/kernel/src/task/mod.rs:2480-2622 | the code found in a child when it is reaped is the one that child gave to `exit` |
| SchedSteps.WakeDoes | os/muse-riscv-os/kernel/src/task/mod.rs:1826-1842 | in every run a wake makes a blocked task runnable where a hart will find it, and changes nothing else |
| SchedSteps.KillDoes | os/muse-riscv-os/kernel/src/task/mod.rs:1733-1760 | a kill marks any task that is not dead with the code, and wakes it if it was blocked |
| SchedSteps.BlockDoes | os/muse-riscv-os/kernel/src/task/mod.rs:1810-1820 | blocking puts the running task to sleep for its reason, current until the trap epilogue |
| SchedSteps.PickDoes | os/muse-riscv-os/kernel/src/task/mod.rs:1966-2098 | the task a trap epilogue picks was queued or current, and runs afterwards on that hart alone; the one it displaces is ready again if it could go on |
| SchedSteps.SwitchDoes | os/muse-riscv-os/kernel/src/task/mod.rs:2177-2251 | an exiting hart runs what it had picked, or idles |
| SchedSteps.ForkDoes | os/muse-riscv-os/kernel/src/task/mod.rs:1179-1339 | a fork adds one runnable task, unmarked, childless, ready, and listed by its parent |
| SchedSteps.ReapDoes | os/muse-riscv-os/kernel/src/task/mod.rs:2507-2558 | a reap takes the child out of the tables, every queue and its parent's list, and nothing else |
| HartScheduler.Scheduler.PickLocked | os/muse-riscv-os/kernel/src/task/mod.rs:690-806 | the pick is the least-loaded takeable task under its quota of the first queue that has one, own queue first, failing that any takeable task; entries parked during the scan are back in their queues, stale ones gone, and no takeable task is lost |
| HartScheduler.Scheduler.FindNext | os/muse-riscv-os/kernel/src/task/mod.rs:1555-1658 | the same for the pick of an exiting hart, which weighs the tasks of all queues against each other |
| HartScheduler.Scheduler.SchedulePoint | os/muse-riscv-os/kernel/src/task/mod.rs:1966-2098 | one whole scheduling point is one step of the transition system |
| HartScheduler.Scheduler.Exit | os/muse-riscv-os/kernel/src/task/mod.rs:1460-1553 | the funeral, the adoption of orphans, the parent's wake-up and the pick are one step; what that step does to every task is `SchedWaits.ExitDoes` |
| HartScheduler.Scheduler.SwitchTo | os/muse-riscv-os/kernel/src/task/mod.rs:2177-2251 | the second look of an exiting hart is one step, and enters what was picked |
| HartScheduler.Scheduler.WaitPid | os/muse-riscv-os/kernel/src/task/mod.rs:2480-2622 | a reaped child, no child, or not yet, with exactly the state each leaves, in one pid namespace |
| HartScheduler.Scheduler.InstallChild | os/muse-riscv-os/kernel/src/task/mod.rs:1179-1339 | the last critical section of a fork |
| TcpStream.StreamIntegrity | os/muse-riscv-os/kernel/src/net/tcp.rs:324-458 | over a network that loses, repeats, delays and reorders, what one application has read is a prefix of what the other has sent |
| TcpStream.EofIsTheEnd | os/muse-riscv-os/kernel/src/net/tcp.rs:591-609 | end of stream is reported only when the other side has closed and everything it sent has been read |
| TcpStream.NothingForgotten | os/muse-riscv-os/kernel/src/net/tcp.rs:344-352 | a byte leaves the retransmission buffer only when the other side holds it |
| TcpStream.RetransmissionIsTaken | os/muse-riscv-os/kernel/src/net/tcp.rs:700-722 | once the acknowledgements are level, the first segment of a retransmission that arrives is taken |
| TcpStream.CloseNeverCompletes | os/muse-riscv-os/kernel/src/net/tcp.rs:187-205 | no connection between two such stacks reaches FIN_WAIT_2, CLOSING or CLOSED by an exchange of segments |
| TcpClose.DeliveryKeepsUnread | os/muse-riscv-os/kernel/src/net/tcp.rs:206-214 | a delivery leaves unread bytes to be read if and only if the segment is not a reset |
| TcpClose.ResetExactly | os/muse-riscv-os/kernel/src/net/tcp.rs:232-251 | over runs, a reset of a side is on the network if and only if it answered a segment while closing, given up or unopened, closed outside ESTABLISHED and CLOSE_WAIT, or gave up |
| TcpClose.CloseLosesExactly | os/muse-riscv-os/kernel/src/net/tcp.rs:613-660 | a close can end with the other side shut out before it has read everything if and only if that side is open with something left to read, acknowledged or not |
| TcpStream.CloseLosesAcknowledgedData | os/muse-riscv-os/kernel/src/net/mod.rs:800-806 | a run in which a byte that was received and acknowledged is never read because the sender closed |
| TcpArrives.DeliveryExact | os/muse-riscv-os/kernel/src/net/tcp.rs:324-458 | in every run, a segment that reaches an open, established or half-closed side and is not stale forgets exactly the bytes it acknowledges, adds its data as far as there is room if and only if that comes next, ends the stream if and only if it is a FIN and everything sent is there, and is answered by an acknowledgement of all there is if and only if it carries data or a FIN; a stale one changes nothing |
| TcpArrives.DroppedIsStale | os/muse-riscv-os/kernel/src/net/tcp.rs:329-368 | the segments dropped for their acknowledgement are exactly those that acknowledge less than has been acknowledged |
| TcpArrives.FinIsHeard | os/muse-riscv-os/kernel/src/net/tcp.rs:400-416 | a FIN that reaches an open, established side brings it to CLOSE_WAIT if and only if every byte sent has arrived, and is acknowledged; once what waits is read `tcp_recv` reports the end |
| TcpArrives.NewDataDropped | os/muse-riscv-os/kernel/src/net/tcp.rs:365-368 | a run in which the very byte a side waits for arrives with an older acknowledgement and is dropped |
| TcpReaches.EverythingCanArrive | os/muse-riscv-os/kernel/src/net/tcp.rs:674-722 | whatever was lost, repeated or reordered, from every reachable state with both sides established there is a continuation in which one side reads everything the other has sent, and then the end |
| TcpReaches.CutExact | os/muse-riscv-os/kernel/src/net/tcp.rs:567-583 | a transmission carries its bytes once each, in order, in segments neither empty nor too long, numbered by their first byte |
| TcpReaches.AcceptedIsSent | os/muse-riscv-os/kernel/src/net/tcp.rs:550-589 | every byte `tcp_send` accepted has been put on the network |
| TcpReaches.ReadIsAnswer | os/muse-riscv-os/kernel/src/net/tcp.rs:591-609 | what is read is what `tcp_recv` answers, in order, and leaves the buffer |
| TcpOpens.SynIsAnswered | os/muse-riscv-os/kernel/src/net/tcp.rs:258-322 | a SYN half-opens a server and is answered with its own SYN and the acknowledgement |
| TcpOpens.SynAckOpens | os/muse-riscv-os/kernel/src/net/tcp.rs:373-388 | that answer always establishes a client that waits for it |
| TcpOpens.AckOpens | os/muse-riscv-os/kernel/src/net/tcp.rs:329-352 | any acknowledgement of the client's establishes a server that waits for it |
| TcpSocket.Sock.ChildRx | os/muse-riscv-os/kernel/src/net/tcp.rs:324-458 | the control block and the reply after one segment, case by case, with wrapping 32-bit numbers; what they mean on a connection is `TcpArrives.DeliveryExact` |
| TcpSocket.Sock.Send | os/muse-riscv-os/kernel/src/net/tcp.rs:550-589 | the answers of `tcp_send`, and on a link that stops part-way exactly the segments sent are kept |
| TcpSocket.Sock.Recv | os/muse-riscv-os/kernel/src/net/tcp.rs:591-609 | data, end of stream, dead or try again |
| TcpSocket.Sock.Close | os/muse-riscv-os/kernel/src/net/tcp.rs:613-660 | FIN and a lingering slot, or a reset and a free one |
| TcpSocket.Sock.Resend | os/muse-riscv-os/kernel/src/net/tcp.rs:674-722 | what one retransmission puts on the wire |
| FsDisk.Disk.WriteAt | os/muse-riscv-os/kernel/src/fs/disk.rs:634-666 | the file's contents are the old ones overwritten at the offset; its record keeps kind and links and is as long as what was written reaches, every other record is the same, every other byte of every file stays, the bitmap stays exact, and a short count means the file cannot grow there or the disk is full |
| FsDisk.Disk.WriteThenRead | os/muse-riscv-os/kernel/src/fs/disk.rs:604-666 | what has been written is read back |
| FsDisk.Disk.ReadAt | os/muse-riscv-os/kernel/src/fs/disk.rs:604-631 | the bytes at the offset, up to the room, the end or the first hole; without holes the slice of the contents |
| FsDisk.Disk.DataBlock | os/muse-riscv-os/kernel/src/fs/disk.rs:348-427 | the block of a file index through direct, indirect and double-indirect tables, allocated when missing; existing contents of every file stay, every block stays reached at most once and every bit right |
| FsDisk.Disk.Balloc | os/muse-riscv-os/kernel/src/fs/disk.rs:430-451 | the first free block outside the journal, zeroed and marked, or none because none is free |
| FsReclaim.FreeInoBlocks | os/muse-riscv-os/kernel/src/fs/disk.rs:463-502 | the bits of exactly the blocks in the inode's tree are cleared |
| FsReclaim.Truncate | os/muse-riscv-os/kernel/src/fs/disk.rs:504-522 | the file is empty, its blocks are free, every other file is as before, the bitmap stays exact |
| FsReclaim.LinkUnlink | os/muse-riscv-os/kernel/src/fs/disk.rs:894-919 | a link more and a link fewer is no change and frees nothing |
| FsReclaim.TakeInode | os/muse-riscv-os/kernel/src/fs/disk.rs:675-703 | the first free inode becomes an empty file or directory; none only if none is free |
| FsRebuild.RebuildBitmap | os/muse-riscv-os/kernel/src/fs/disk.rs:118-204 | from any bitmap, a bit is set afterwards exactly for reserved, journal and reached blocks and for bits the clearing missed; at least one block write per journal block |
| FsRebuild.RebuiltExact | os/muse-riscv-os/kernel/src/fs/disk.rs:122-128 | the rebuilt bitmap is exact if and only if no stale bit was set past the reach of the clearing |
| FsRebuild.ReachesAll | os/muse-riscv-os/kernel/src/fs/disk.rs:122-128 | for which block counts the clearing reaches every bit; it misses at most seven |
| FsRebuild.NothingStale | os/muse-riscv-os/tools/mkfs/src/main.rs:7-9 | with the journal at the tail of the disk, as the image builder puts it, nothing stale can be left |
| FsRebuild.RebuildLeavesStale | os/muse-riscv-os/kernel/src/fs/disk.rs:122-128 | a device of 4097 blocks on which a rebuild leaves a block in use that nothing accounts for |
| FsDir.InsertedLook | os/muse-riscv-os/kernel/src/fs/disk.rs:709-749 | after an insertion the new name is found with its child and every other name as before |
| FsDir.RemovedLook | os/muse-riscv-os/kernel/src/fs/disk.rs:827-892 | after a removal every other name is as before |
| FsDir.InsertRemove | os/muse-riscv-os/kernel/src/fs/disk.rs:709-749 | inserting a new name and removing it again changes no look-up |
| FsNames.Lookup | os/muse-riscv-os/kernel/src/fs/disk.rs:525-553 | the first entry under the name in the directory's contents |
| FsNames.DirInsert | os/muse-riscv-os/kernel/src/fs/disk.rs:709-749 | the contents with the entry in the first free slot or appended; refused only when there is no free slot and no room for one more |
| FsNames.Unlink | os/muse-riscv-os/kernel/src/fs/disk.rs:827-892 | the entry is gone, the inode it named has one link fewer or with the last link is free, its blocks with it, and no other record or contents changed |
| FsNames.Create | os/muse-riscv-os/kernel/src/fs/disk.rs:669-707 | the first free inode is an empty file or directory with one link under its name and nothing else changed; refused without change only when no inode is free, and otherwise only when the directory has no room, leaving the inode taken |
| FsImage.NewImage | os/muse-riscv-os/tools/mkfs/src/main.rs:35-81 | the image the builder starts from has an exact bitmap, two empty directories and no hole |
| HeapTiles.FreedIsInitial | os/muse-riscv-os/kernel/src/mem/heap.rs:71-105 | after any sequence of allocations and frees, with nothing live the heap is the one free node it began as |
| HeapTiles.AllocFree | os/muse-riscv-os/kernel/src/mem/heap.rs:38-105 | freeing what was just allocated restores the heap |
| HeapTiles.Conserved | os/muse-riscv-os/kernel/src/mem/heap.rs:38-105 | free and live blocks always tile the heap, so their sizes add up to it |
| HeapLive.AllocLive | os/muse-riscv-os/kernel/src/mem/heap.rs:38-70 | an allocation adds one live block at the front of the first gap long enough, of the size needed or of a gap that exceeds it by less than a header; no other block moves |
| HeapLive.FreeLive | os/muse-riscv-os/kernel/src/mem/heap.rs:71-105 | a free removes that live block and no other |
| HeapLive.LiveStays | os/muse-riscv-os/kernel/src/mem/heap.rs:38-105 | through any sequence of calls a live block keeps its place and size until it is freed |
| HeapLive.LiveDecides | os/muse-riscv-os/kernel/src/mem/heap.rs:6-37 | the live blocks alone decide how the heap is cut: free space is always in as few pieces as there can be |
| HeapAlloc.Heap.Alloc | os/muse-riscv-os/kernel/src/mem/heap.rs:38-70 | first fit on the linked nodes: null only when no free block fits, else an aligned block no live block overlaps, split as specified |
| HeapAlloc.Heap.Dealloc | os/muse-riscv-os/kernel/src/mem/heap.rs:71-104 | the block is free and merged with both neighbours, the list sorted by address, no other block touched |
| GcmMul.GfMulIsProduct | os/muse-riscv-os/user-lib/guest-tls/src/gcm.rs:9-29 | the bit loop computes the product of two polynomials modulo x^128 + x^7 + x^2 + x + 1 |
| GcmMul.ProductUnique | os/muse-riscv-os/user-lib/guest-tls/src/gcm.rs:9-29 | that specification has one answer |
| GcmMul.GfMulCommutes | os/muse-riscv-os/user-lib/guest-tls/src/gcm.rs:9-29 | the multiplication is commutative |
| GcmMul.GfMulLinear | os/muse-riscv-os/user-lib/guest-tls/src/gcm.rs:9-29 | and linear under exclusive or |
| ShaStream.Hash | os/muse-riscv-os/user-lib/src/lib.rs:746-811 | however the input is cut into chunks, the state is that of compressing the padded whole, for any compression function |
| ShaStream.PaddedParts | os/muse-riscv-os/user-lib/src/lib.rs:772-798 | the padded message is the message, the byte 0x80, the fewest zeros, and in eight bytes, most significant first, its length in bits |
| ShaStream.PaddedApart | os/muse-riscv-os/user-lib/src/lib.rs:772-798 | different messages are padded differently, below 2^64 bits |
| BlockCache.Cache.Victim | os/muse-riscv-os/kernel/src/fs/blk.rs:58-72 | the clock ends, takes a referenced slot only when every slot was in use and referenced, and then the one the hand was at |
| BlockCache.Cache.Read | os/muse-riscv-os/kernel/src/fs/blk.rs:79-116 | the device's sector on a hit or a good fetch, else the caller's buffer untouched; the sector is then in the cache if and only if it was or was fetched, and the next one if it was read ahead; the cache goes on agreeing with the device |
| BlockCache.Cache.Write | os/muse-riscv-os/kernel/src/fs/blk.rs:146-166 | the cache agrees with the device afterwards if and only if the device stored the sector or it already held that data |
| CgroupRecycle.HandedOutFit | os/muse-riscv-os/kernel/src/task/mod.rs:475-552 | in every interleaving a recycled group is handed out empty, with no frames and no processor time, and bare of cap and share if and only if no setter came between this call's zeroing and its hand-out |
| CgroupRecycle.JoinedBetween | os/muse-riscv-os/kernel/src/task/mod.rs:464-474 | between two hand-outs of one group some process has entered or been forked into it: a group made and not yet entered is nobody else's |
| CgroupRecycle.OneHolder | os/muse-riscv-os/kernel/src/task/mod.rs:471-474 | two calls never hold the same group |
| CgroupRecycle.RecheckNeverFails | os/muse-riscv-os/kernel/src/task/mod.rs:517-535 | the recheck of the third phase never finds anything, so neither fallback is taken |
| CgroupRecycle.HandedOutTouched | os/muse-riscv-os/kernel/src/task/mod.rs:232-245 | a run that hands out a group with a share of 500 |
| CgroupRecycle.FirstReusable | os/muse-riscv-os/kernel/src/task/mod.rs:479-497 | the first group that is in use, not reserved and empty, or none because there is none |
| CgroupOutcome.NewOnlyIfNone | os/muse-riscv-os/kernel/src/task/mod.rs:476-512 | in every run a call makes a new group only if no group could be reused when it looked, or the first that could still had frames charged |
| CgroupOutcome.FailsOnlyIfFull | os/muse-riscv-os/kernel/src/task/mod.rs:476-574 | and fails only if besides the table was full |
| CgroupOutcome.HasItsLimit | os/muse-riscv-os/kernel/src/task/mod.rs:545-573 | a group that a call has returned has the limit of that call until somebody sets another |
| CgroupOutcome.ChargedWithin | os/muse-riscv-os/kernel/src/mem/frame.rs:60-86 | a frame that is free is refused to a process if and only if its group has a limit and has reached it, and otherwise counted once |
| CgroupTable.Groups.ReserveSlot | os/muse-riscv-os/kernel/src/task/mod.rs:476-499 | the first phase as written is one step of the protocol, and reserves the first group that can be reused if there is one |
| CgroupTable.Groups.InstallSlot | os/muse-riscv-os/kernel/src/task/mod.rs:517-547 | the third phase as written is one step |
| TraitGreatest.ProvIsHas | compiler/aeroc/src/codegen.rs:765-924 | wherever the search meets no declaration again with other arguments, it answers true exactly on the greatest fixed point of the trait rules over instances, under any assumptions |
| TraitGreatest.SearchIsGreatest | compiler/aeroc/src/codegen.rs:760-763 | where the search is steady, which without type parameters it always is, it is the coinductive reading of the rules |
| TraitGreatest.FieldsFollow | compiler/aeroc/src/codegen.rs:760-763 | when an instance is found to have a trait, so is each of its fields, generic declarations included, if neither search meets a declaration again with other arguments |
| TraitGreatest.PlainFieldsFollow | compiler/aeroc/src/codegen.rs:760-763 | without type parameters the fields always follow |
| TraitGreatest.GenericFieldsDoNotFollow | compiler/aeroc/src/codegen.rs:828-848 | a generic declaration found to have a trait that its only field is found not to have, and the search is not steady there |
| TraitGreatest.GreatestIsFixed | compiler/aeroc/src/codegen.rs:760-763 | the greatest fixed point satisfies the rules in both directions |
| TraitProver.Prover.Provable | compiler/aeroc/src/codegen.rs:764-924 | the imperative search with its shared set of assumptions computes the recursive one and restores the set |
| TraitRules.Scalars | compiler/aeroc/src/codegen.rs:793-817 | which scalars are found to have which traits; floating-point numbers are equatable only through their order |
| TraitRules.ListsAndOptions | compiler/aeroc/src/codegen.rs:821-826 | a list or option has a default and exactly the other traits of its element |
| TraitRules.Dictionaries | compiler/aeroc/src/codegen.rs:827-836 | a dictionary has a default, is never ordered or hashed, and has exactly the other traits that keys and values both have |
| TraitRules.Borrows | compiler/aeroc/src/codegen.rs:837 | a borrow has exactly the traits of what it borrows |
| TraitRules.Pointers | compiler/aeroc/src/codegen.rs:787-820 | managed and raw pointers, futures and closures can be copied and nothing else |
| TraitTypes.SubstAt | compiler/aeroc/src/codegen.rs:72-105 | at every position of a type a parameter becomes its argument, managed if either was, and everything else stays what it was |
| LeanNameless.SubstMeaning | compiler/muse-lean/src/ast.rs:240-314 | capture-avoiding substitution is substitution: on terms without bound names it just puts one term for a variable |
| LeanNameless.SubstFv | compiler/muse-lean/src/ast.rs:169-314 | what is free in the result is exactly what was free but for the variable, and what is free in the value if the variable was |
| LeanNameless.SubstAlpha | compiler/muse-lean/src/ast.rs:240-314 | terms that differ in bound names alone stay so |
| LeanNameless.SubstSubst | compiler/muse-lean/src/ast.rs:240-314 | two substitutions change places |
| LeanHoles.OccursExact | compiler/muse-lean/src/ast.rs:372-402 | for any hole, assigned or not, the occurs check finds it if and only if it is left once every other assignment has been applied |
| LeanHoles.AssignAcyclic | compiler/muse-lean/src/kernel.rs:443-454 | an assignment that passes the check makes no cycle |
| LeanHoles.ZonkTwice | compiler/muse-lean/src/kernel.rs:51-90 | applying a larger assignment after a smaller one is applying the larger |
| LeanMatch.Elab.AssignHole | compiler/muse-lean/src/kernel.rs:383-454 | for an unassigned hole and a value without assigned holes, as both callers pass them: refused exactly if the hole is in the value without being it |
| LeanMatch.Elab.MatchPat | compiler/muse-lean/src/tactic.rs:556-596 | matching ends and keeps the assignment acyclic and the earlier assignments; on terms without binders, for a subject without unassigned holes and a pattern without holes in a `let`, it succeeds if and only if some larger acyclic assignment makes pattern and subject the same, and then assigns what every such assignment says; terms without holes, `let` and unresolved names match if and only if they differ in bound names and annotations alone |
| LeanReduce.RedFv | compiler/muse-lean/src/kernel.rs:112-330 | reduction frees no variable: a closed term stays closed |
| LeanWhnf.WhnfFuel | compiler/muse-lean/src/kernel.rs:112-218 | the input reduces to the result, and if fuel is left no function, `let`, definition or decided conditional is left to contract at its head; where head reduction ends and meets no primitive, fuel for twice the sizes of the terms on the way is enough and the result is that end |
| LeanWhnf.OnlyPrimitivesLeft | compiler/muse-lean/src/kernel.rs:112-218 | then nothing on the spine of the result contracts but by an equation of a primitive |
| LeanWhnf.Whnf | compiler/muse-lean/src/kernel.rs:92-330 | weak head normalisation ends within its fuel on a term the input reduces to, and on the end of head reduction where that is within the fuel |
| LeanWhnf.Normalize | compiler/muse-lean/src/kernel.rs:334-375 | normalisation ends within its budget on a term the input reduces to; where head reduction ends within the fuel at every position and the budget covers the positions, every position is normalised |
| LeanWhnf.NormalIsNormal | compiler/muse-lean/src/kernel.rs:334-375 | nothing is then left to contract at any position |
| LeanWhnf.PrimReduce | compiler/muse-lean/src/kernel.rs:226-330 | a primitive with too few arguments is left alone; otherwise the argument it looks at is reduced and exactly the rule that fires on it is applied |
| LeanWhnf.FiresExactly | compiler/muse-lean/src/kernel.rs:226-330 | a primitive fires if and only if one of its equations applies, on the right side of that equation |
| LeanHead.HeadStepReduces | compiler/muse-lean/src/kernel.rs:112-218 | each step of head reduction is a reduction |

## Findings

Properties the repository's comments promise, or that one would expect of its code, and that do not hold.
Each has an input that breaks it and a condition, checkable before the step, under which it holds.

| property | source | broken by | holds exactly when |
|---|---|---|---|
| a replay may be interrupted and run again | os/muse-riscv-os/kernel/src/fs/jnl.rs:338-339 | `JournalInterrupted.InterruptedReplayLosesBlock` | no clean superblock is re-applied before the end (`JournalStale.RunReplayCutsExact`; for any device `JournalFindings.ReplayCutsExact`) |
| a recovery may be interrupted | os/muse-riscv-os/kernel/src/fs/disk.rs:99-101 | `JournalStale.CutOfRecoveryLosesBlock` | the flag on the device reads set, or the cut leaves no record ahead of its block (`JournalStale.RecoveryCutExact`) |
| a call is durable as a whole or not at all | os/muse-riscv-os/kernel/src/fs/jnl.rs:7-9 | `JournalInterrupted.HalfACallSurvives` | every block it changed since the last commit record still has an applicable record (`JournalFindings.RollsBackExactly`) |
| replay orders by number, so the chunk's commit may be written first | os/muse-riscv-os/kernel/src/fs/jnl.rs:227-231 | `JournalValveRun.ValveCutLosesBlock` at the next mount, `JournalLateRun.ValveCutLosesBlockLater` at a later one | the record about to be overwritten is neither the last one left of a block that should show another value, nor an untagged one that a newer surviving record of its block disagrees with (`JournalLate.ValveCutExact`, for every later mount) |
| what a side has acknowledged is read however the other side closes | os/muse-riscv-os/kernel/src/net/tcp.rs:187-205 | `TcpStream.CloseLosesAcknowledgedData` | the other side has read everything before the close (`TcpClose.CloseLosesExactly`) |
| a closed connection is released by the exchange of FIN and ACK | os/muse-riscv-os/kernel/src/net/tcp.rs:611-612 | `TcpStream.CloseNeverCompletes`: never, for two such stacks, because the look-up skips closing slots | never |
| only an acknowledgement beyond what was sent drops a segment | os/muse-riscv-os/kernel/src/net/tcp.rs:365-368 | `TcpArrives.NewDataDropped`: an older acknowledgement drops new data as well | the segment acknowledges at least what has been acknowledged (`TcpArrives.DroppedIsStale`) |
| init reaps the zombies it is handed | os/muse-riscv-os/kernel/src/task/mod.rs:1504-1506 | `SchedInitRun.InitSleepsBesideZombie`: it sleeps on beside one until a child of its own exits | the exiting task is a child of init, or leaves no zombie child (`SchedWaits.InitMissesExactly`) |
| a rebuild leaves an exact bitmap | os/muse-riscv-os/kernel/src/fs/disk.rs:117-128 | `FsRebuild.RebuildLeavesStale` | no stale bit past the reach of the clearing (`FsRebuild.RebuiltExact`, `FsRebuild.ReachesAll`, `FsRebuild.NothingStale`) |
| a failed create changes nothing | os/muse-riscv-os/kernel/src/fs/disk.rs:700-707 | `FsNames.Create`: the inode found stays taken when its name cannot be inserted | no inode was free (`FsNames.Create`) |
| a recycled group starts with fresh accounts | os/muse-riscv-os/kernel/src/task/mod.rs:511-514 | `CgroupRecycle.HandedOutTouched` | no setter came between the zeroing and the hand-out (`CgroupRecycle.HandedOutFit`) |
| the cache holds what the device holds | os/muse-riscv-os/kernel/src/fs/blk.rs:146-166 | `BlockCache.Cache.Write` with a refused device write | the device stored the sector or already held the data (`BlockCache.Cache.Write`) |
| a derived trait holds of every field | compiler/aeroc/src/codegen.rs:760-763 | `TraitGreatest.GenericFieldsDoNotFollow` | one way: whenever the search meets no declaration again with other arguments (`TraitGreatest.FieldsFollow`) |

## Left out

Of the journal:

- Sequence numbers, generations and transaction ids are unbounded; their wrap-around at 2^32 is not modelled.
- `jnl_crc` is taken as free of collisions, and a sector write either happens or does not.
- The journal's byte layout within a sector, images without a journal, and the agreement of the block cache with the device after a replay.
- File system operations are not run through the journal machine call by call; `JournalRebuild` does so for the rebuild.

Of the scheduler:

- The load and quota of a group are read once per pick; a tick during a pick is not modelled.
- HartScheduler.Scheduler.WaitPid: one pid namespace; the matching of namespaces is not modelled.
- Trap frames, page tables and frame allocation.
- Memory accesses outside the big lock, except the hand of an exiting hart.

Of TCP:

- One connection per pair of addresses, fewer than 2^31 bytes each way; the listener's backlog and slot table.
- Timers and retry counts: a retransmission or giving up may happen at any time.
- Checksums, address resolution and the byte layout of segments.

Of the file system:

- Path walking, `list_dir` and `stat`; concurrent callers.
- FsReclaim.AddLink: requires room in the 32-bit link count, because `link` lets it wrap and the wrap is not modelled.
- FsImage.NewImage: stops before the name of `/bin` is added; `inode_grow` and `dir_add` of the image builder are not modelled.
- The superblock's fields are the layout parameter of the model, not bytes read from sector 0.

Of the rest:

- HeapAlloc.Heap.Alloc: promises 16-byte alignment only, because the code ignores a larger alignment in the layout it is given.
- The compression function and output bytes of SHA-256 (`ShaStream` holds for any compression function); AES, GHASH over whole messages and the GCM mode.
- Read-ahead timing in the block cache, and harts sharing it.
- Parent links of control groups and the quota windows.
- LeanMatch.Elab.AssignHole: asks for what `deq` establishes by reducing both sides first; for other callers it promises nothing.
- LeanMatch.Elab.MatchPat: of terms that have both holes and binders it promises only that matching ends and keeps the assignment acyclic, because the code lets the stand-in for a bound variable into an assignment; a `let` is compared whole.
- LeanWhnf.Whnf: where a primitive comes to the head it promises reduction only; with fuel left a primitive with all its arguments may still contract there, as in `(fun x => Nat.add x) a Nat.zero`, where the code returns `Nat.add a Nat.zero` without trying the primitive again (kernel.rs:148-160).
- LeanWhnf.Normalize: likewise where a primitive comes to the head of a position.
- TraitGreatest.FieldsFollow: sufficient only; a search that meets a declaration again with other arguments may still answer rightly.
- Universe levels, definitional equality, inference and the tactic blocks of `muse-lean`, which substitution passes through unread; reduction of terms that contain holes.

Where code and comments disagree the models follow the code: `jnl.rs` says transactions are applied whole or
not at all while home sectors are written before the commit record, `net/mod.rs` says a reclaimed closing
socket has received everything while its state changes only through a look-up that skips it, and `tcp.rs` says
a segment is dropped for an acknowledgement beyond what was sent while it also drops those with older ones.
