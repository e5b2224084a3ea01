# Verification of drawterm

drawterm runs a small Plan 9 kernel in user space: a name space of channels, a 9P client that many processes
share, queues of blocks, locks and sleeps, a TLS record layer, and a 9P server for the host's files; beside it
stands aan, which keeps a session alive over connections that break. These files model the parts of it whose
state has to be kept right over all runs, and the parts that rewrite data, and prove what they keep.

| files | what they model |
|---|---|
| `words.dfy` | bytes and the 32-bit words of the C code |
| `aan.dfy`, `aan_session.dfy`, `aan_eof.dfy` | aan's client record, every run of two of them over connections that are cut, and the end of file in such runs |
| `cleanname.dfy`, `cleanmeaning.dfy` | cleanname, in place, and what a cleaned name means |
| `walk.dfy`, `chan.dfy`, `walking.dfy`, `walk_names.dfy` | resolving names one by one; channels and names with their reference counts; the batched walk; names with ".." |
| `mounttable.dfy` | cmount and cunmount, with the linked unions and the linked list of all mounts |
| `devmnt.dfy`, `devmnt_runs.dfy`, `mountgate.dfy` | tags and request structures, every interleaving of callers on one mount, and the gate where they sleep |
| `blocks.dfy`, `qio.dfy`, `flow.dfy`, `mntrpc.dfy` | blocks, queues, flow control, and 9P messages cut out of a queue |
| `sleep.dfy`, `qlock.dfy`, `rwlock.dfy` | sleep, wakeup and interrupts; queueing locks; reader/writer locks |
| `tls.dfy`, `tls_io.dfy`, `tls_runs.dfy` | padding and sealing, record writing and reading, and runs of two ends |
| `mountfix.dfy` | directory reads with mounted names put in, and what overflows |
| `winargs.dfy`, `winlines.dfy` | the quoter and the parser of Windows command lines, and what any line comes to |
| `exfids.dfy`, `exfiles.dfy`, `exqids.dfy`, `exflush.dfy`, `exflush_client.dfy` | the export server: fid table, file tree, unique qids, flushes, and flushes as its client sees them |

Where the C code changes something in place, a class or an array does so here, and its methods are tied to
functions on values; the properties are then lemmas about those functions, or invariants of every run of a step
system. A mistake in the program is left in, with an input that shows it and the condition under which the
program does what it should; "Findings" lists them.

## Model

| member | source | states |
|---|---|---|
| `Aan.Client.FreeAcked` | aan.c:167-177 | an acknowledgement that is ahead by d takes just the first d messages off the queue, or all if there are fewer; one that is not takes none; the program's assertion holds of each, and the queue stays consecutive |
| `Aan.Client.SendQueue` | aan.c:43-73 | a reconnect resends the unacknowledged messages in order, or a prefix of them when a write fails |
| `Aan.Client.Take` | aan.c:139-190 | which messages are accepted, ignored, or end the reader; only an accepted one moves the counter |
| `AanSession.ExactlyOnceInOrder` | aan.c:42-190 | in every run of two ends with cuts and reconnects, what one delivers is a prefix, in order and without repeats, of what the other wrote; nothing is freed before it was accepted; an end of file comes after everything |
| `AanSession.FreedIsAcked` | aan.c:167-177 | in every run releasing goes exactly as far as the acknowledgement says, if that is less than 2^31 messages ahead, and otherwise releases nothing |
| `AanSession.QueueInEveryRun` | aan.c:42-190 | in every run the unacked queue holds the numbers lastacked up to outmsg - 1, with the chunks written under them |
| `AanSession.DrainedMeansDelivered` | aan.c:42-190 | whenever a live connection has drained, everything written has been delivered |
| `AanSession.WindowIsTight` | aan.c:161-165 | with one more unacknowledged message than the bound of the runs allows, a resent message is taken for a new one |
| `AanSession.EofSeenUnlessNumberedAsSync` | aan.c:151-157 | the reader ends on an end of file if and only if its number is not the one of sync messages |
| `AanEof.LostIff` | aan.c:76-190 | there is a run in which the end of file behind n chunks is written, everything is read from a live connection, and the reader still waits, if and only if n is 2^32 - 1 modulo 2^32 |
| `CleanName.Cleanname` | libc/cleanname.c:8-63 | the in-place pass leaves the printed stack of components, "." or "/" if empty, "./" before a bared '#', and writes nothing past the larger of the length and one character |
| `CleanName.CleanIdempotent` | libc/cleanname.c:8-63 | cleaning a clean name changes nothing |
| `CleanMeaning.CleanMeans` | libc/cleanname.c:8-63 | a clean name is the shortest way, so many levels up and then names down, to where the elements of the name lead; it has "./" at its front if and only if it would begin with '#' and that was not at the front before |
| `CleanMeaning.SamePlace` | libc/cleanname.c:8-63 | the clean name leads to the same place |
| `Walking.Walk` | kern/chan.c:861-1019 | batches of names lead to the file, path and mount history that one name at a time leads to, at a mount point by the first member of the union that has the name, or fail when there is no such way; no channel and no name that others have is written to; a failure leaves every reference count as it was; after a success the caller's reference has become one to a new channel and every other belongs to the mount table or to an object still in use |
| `Walking.NameRound` | kern/chan.c:915-1006 | one round: across a mount point, a request of up to 16 names tried on every member of a union, back to the first mount point passed; the device's clone is closed when it is not used, and what the name and the channel hold is exchanged exactly |
| `Walking.DotDotRound` | kern/chan.c:921-956 | a round of "..": the device's parent, then back under the mount point recorded there, whose reference moves from the name to the walk |
| `Walk.ResolveIs` | kern/chan.c:915-1006 | resolving comes to a place if and only if there is a way to it, each name taken at the device, at the first member of a union that has it, or back under a recorded mount point |
| `Walk.FoundInUnion` | kern/chan.c:921-937 | a last name looked up in a union is found if and only if some member has it, and then at the first such member |
| `Walk.ToMountPoint` | kern/chan.c:958-1000 | going on behind the first mount point among the files passed comes to what one name at a time comes to |
| `Walk.FallsShort` | kern/chan.c:958-984 | when a batch walks only part of its names and meets no mount point, one name at a time fails too |
| `Walk.Window` | kern/chan.c:900-913 | a batch has 1 to 16 names, as many as there are before the next "..", or that alone, so that every round consumes a name |
| `Chans.CloseChanPaid` | kern/chan.c:274-431 | closing a channel takes one reference of the caller's, and of the others just those that objects have which nobody refers to any more: their names, the mount points in these, and so on; none is dropped twice and none is left over |
| `Chans.Kernel.Cclose` | kern/chan.c:415-431 | the loop and the mutual recursion of cclose and pathclose come to that |
| `Chans.Kernel.Uniquepath` | kern/chan.c:316-327 | a name that others have is copied, its mount points taken, before it is written to |
| `Chans.Kernel.Addelem` | kern/chan.c:330-375 | another element, with the mount point under it, or one less for "..", and just the references that makes |
| `WalkNames.DotDotIsLexical` | kern/chan.c:293-375 | a list of names that never climbs above its start ends where the list with each name/".." pair taken out ends: same file, path and mount history, through mounts and unions |
| `WalkNames.ThereAndBack` | kern/chan.c:792-839 | a name and then ".." end where they started, whether or not the directory is a mount point or a union |
| `WalkNames.PathInStep` | kern/chan.c:293-375 | after any walk the path string is that of its components and mlen - 1 is their number |
| `WalkNames.ParseName` | kern/chan.c:1082-1111 | the elements of a name without any ".", and that it must be a directory if and only if it is empty or ends in "/" or a "." |
| `WalkNames.DotLosesMountPoint` | kern/chan.c:330-375 | a "." that ends a batch at a mount point loses that mount point exactly if the path had not recorded it already |
| `MountTable.Pgrp.Cmount` | kern/chan.c:534-662 | the linked unions become replace, new + old or old + new, with the directory itself under a fresh union; the list of all mounts loses those replaced and gets the new ones at its end |
| `MountTable.Pgrp.Cunmount` | kern/chan.c:665-736 | one mount or a whole union goes, with its head when nothing is left; otherwise an error and no change |
| `MountTable.Pgrp.PgrpRemove` | kern/pgrp.c:71-85 | one mount leaves the linked list of all mounts; order and tail pointer stay right |
| `MountTable.Pgrp.Findmount` | kern/chan.c:758-787 | what is found at a channel is the first mount there, and a head that is found has one |
| `MountTable.NoneEmpty` | kern/chan.c:533-787 | in every run of binds and unmounts no union is empty |
| `MountTable.FoundThen` | kern/chan.c:533-787 | what a walk finds at every channel after a bind |
| `MountTable.BindThen` | kern/chan.c:534-662 | member by member, what a union holds after a bind, also of a whole union |
| `MountTable.UnmountThen` | kern/chan.c:665-736 | the first member of that name goes and the others keep their order, and when there is an error |
| `MountTable.UnmountUndoes` | kern/chan.c:533-736 | an unmount right after a bind gives the old table back if and only if one mount was bound that replaced nothing, or joined a union where it now stands first of its name or only before its like; or a union of several was bound that replaced just what its other members come to |
| `Devmnt.Mnt.Mountmux` | kern/devmnt.c:896-930 | a reply goes to the first queued request with its tag, whoever reads it |
| `Devmnt.Mntalloc.Mntralloc` | kern/devmnt.c:979-1032 | a request gets a tag that is not in use, neither 0 nor NOTAG; it fails only when all are in use |
| `Devmnt.Mntalloc.Mntfree` | kern/devmnt.c:1035-1050 | a tag comes free again, in the bitmap or with a kept structure |
| `DevmntRuns.ReturnsOwnAnswer` | kern/devmnt.c:723-793 | in every interleaving of callers, interrupts and replies, a call that returns with an answer has the server's answer to that very request, and one that returns without will not be answered |
| `DevmntRuns.TagsAndReader` | kern/devmnt.c:881-1069 | in every run live requests have different tags, a tag whose answer may still come is not given out, and at most one caller reads |
| `MountGate.NeverStranded` | kern/devmnt.c:760-793 | in every run without transmission errors, while a caller sleeps at the gate there is a reader, or a leaving one looks for somebody to wake, or another caller is on its way to the gate |
| `MountGate.CanGoOn` | kern/devmnt.c:723-793 | a caller on its way needs nobody else: each of its steps takes it nearer to reading |
| `MountGate.Refines` | kern/devmnt.c:723-930 | every step with the gate is one of `DevmntRuns` or changes nothing there |
| `MountGate.StrandedIff` | kern/devmnt.c:737-793 | a caller can be left asleep if and only if a request can fail to be transmitted |
| `Blocks.Splitblock` | kern/qio.c:793-814 | head and tail hold the bytes in order, the tail the number asked for, and the shorter part is the copy |
| `Blocks.Pullupblock` | kern/qio.c:128-185 | the first block gets at least that many bytes and the chain keeps the same bytes, or there are not so many |
| `Blocks.AllocRoom` | kern/allocb.c:14-47 | wherever the memory lies there is room for what was asked and a trailer behind rp and for headers before it, and the panic is not reached |
| `Qio.Queue.Qaddlist` | kern/qio.c:605-628 | the chain goes behind the last block; dlen, blast and wp follow |
| `Qio.Queue.Qread` | kern/qio.c:872-948 | a read of a queue that does not coalesce takes the front of one block, and of a message nothing stays; one that does gives as many bytes as there are up to the length; what is too much is put back, and rp moves by the memory taken |
| `Qio.Queue.Qbread` | kern/qio.c:820-865 | the front of one block, the rest of it put back, or dropped from a message |
| `Qio.Queue.Qconsume` | kern/qio.c:547-599 | the same of the first block with something in it |
| `Qio.Queue.Qdiscard` | kern/qio.c:1134-1166 | as many bytes as asked for, or all, go from the front, and blocks not reached stay as they are |
| `Qio.Stream` | kern/qio.c:405-948 | over any sequence of operations on a queue without messages, the bytes taken, then those still queued, are the bytes accepted |
| `Qio.MessageCut` | kern/qio.c:872-948 | a read of a queue of messages that does not coalesce gives a prefix of one message and drops the rest of it |
| `Flow.FlowIsBounded` | kern/qio.c:444-521 | in every interleaving of writers that block and of readers, wp - rp is the memory queued, at most the limit, the blocks of the writers that still wait and what splits have added |
| `Flow.BackWithinLimit` | kern/qio.c:960-1047 | a writer is back only with everything up to its own block within the limit, but for what splits have added |
| `Flow.KeptIffSplitsFit` | kern/qio.c:793-948 | the bound holds without that addition in all runs if and only if no split puts its tail into more memory than the block had |
| `Flow.KeptIffNotOverfilled` | kern/allocb.c:14-47 | with aligned memory that is so if and only if blocks are filled with no more than 8 bytes above what they were asked for |
| `Flow.SplitFitsAnywhere` | kern/allocb.c:14-47 | in memory anywhere, a split of n bytes fits if and only if n/8 is less than (size+1)/8 |
| `Flow.GrowingSplit` | kern/qio.c:793-814 | a run that goes past its limit with no writer waiting: a one-byte block filled to 80, then split at 15 |
| `Mntrpc.Mntrpcread` | kern/devmnt.c:796-878 | exactly one message comes off the front of what is queued and read, header and data adding up to it, however that is cut into blocks |
| `Mntrpc.ReadMessages` | kern/devmnt.c:796-878 | a stream of well-formed messages comes out message by message for every way of cutting it into non-empty blocks |
| `Mntrpc.NilHeaderIff` | kern/devmnt.c:841-843 | the nil from pullupqueue is used if and only if an Rread claims less than its own header and no more is queued |
| `Mntrpc.ShortRreadIsNil` | kern/devmnt.c:841-843 | every Rread of 7 to 10 bytes alone in the queue gets there |
| `Sleep.OneWakeupPerSleep` | kern/sleep.c:7-164 | in every interleaving each committed sleep is matched by exactly one procwakeup, from wakeup or an interrupt and never both, and no panic is reached |
| `Sleep.ConditionNotMissed` | kern/sleep.c:8-89 | a condition that holds from before a wakeup leaves nobody waiting |
| `Sleep.InterruptFailsSleep` | kern/sleep.c:99-164 | while the note stays no sleep is committed to or returns normally, and one that waits has the interrupt on its way |
| `Sleep.NoteGoesIff` | kern/sleep.c:53-57 | a pending note goes if and only if a sleep fails with it or a system call ends |
| `Sleep.InterruptLost` | kern/sysfile.c:1175-1181 | a run in which a system call ends without sleeping and takes the note with it |
| `Sleep.InterruptReleases` | kern/sleep.c:99-164 | an interrupt that holds a process's lock can always give it up, so the retry breaks the lock order |
| `Sleep.RendLockMoves` | kern/sleep.c:8-164 | who holds the lock of a Rendez can step, or waits for the lock of a process that another has |
| `Qlock.FirstComeFirstServed` | kern/qlock.c:7-87 | the lock is granted in the order of arrival |
| `RWLock.Exclusion` | kern/rwlock.c:7-39 | in every interleaving a writer holds x and k and shares the lock with no reader and no other writer |
| `RWLock.ReadersHoldK` | kern/rwlock.c:7-39 | the count is the number of readers in; while one reads k is held and no writer has it |
| `RWLock.NeverStuck` | kern/rwlock.c:7-39 | while somebody is inside one of the functions, some process can step unless the lock is in use |
| `Tls.OpenSeal` | kern/devtls.c:790-960 | a record that was sealed opens to its data, at most 2^14 bytes of it and within the reader's length test, if and only if something was in it |
| `Tls.OpenIff` | kern/devtls.c:790-960 | a body is accepted for some data if and only if under the cipher lie the initial vector, the data, its MAC and padding that tells its length |
| `Tls.Blockpad` | kern/devtls.c:2106-2116 | 1 to block bytes are added up to a multiple of the block, each one less than their number |
| `Tls.Tlsunpad` | kern/devtls.c:2079-2091 | the length m without padding if and only if every byte from m on tells it, and a failure if there is no such m |
| `Tls.PadUnpad` | kern/devtls.c:2079-2116 | padding comes off again if and only if there was something in front of it |
| `TlsIo.OneWay.Tlsrecwrite` | kern/devtls.c:1251-1370 | the fragments of a write, each sealed under the next count, and the cipher changed after its message |
| `TlsIo.Tlsrecread` | kern/devtls.c:740-978 | a record that is right comes off the input, one is refused only if it can no longer be right or the input has ended, and an interrupted read keeps every byte for the next |
| `TlsIo.Input.Qgrab` | kern/devtls.c:694-716 | the front bytes in one block, and the others left |
| `TlsIo.Input.Regurgitate` | kern/devtls.c:671-688 | the bytes go back in front |
| `TlsRuns.StreamsInStep` | kern/devtls.c:670-1370 | in every run over a stream with an ideal cipher in which changes of cipher are kept apart, what is read is a prefix of what was written, no record is found bad, and a reader that has caught up is at the writer's cipher and count after any number of changes |
| `TlsRuns.AgreeIffApart` | kern/devtls.c:1671-1752 | the ends agree in all runs if and only if no two changecipher commands are between the test and the write at once, and no secret command fails while one is |
| `TlsRuns.FoundBad` | kern/devtls.c:1671-1752 | otherwise there is a run in which the next record is found bad, under every cipher that tells one count from the next |
| `TlsRuns.FailedChangeCounts` | kern/devtls.c:1328-1350 | the write of a change of cipher that finds no new cipher sends nothing but has counted, unless no cipher was in use |
| `Mountfix.Mountfix` | kern/sysfile.c:551-647 | the entries before some point are in the buffer, as the name space shows them and under their old names, the others have gone unchanged to the rock; whole entries only, and as many as fit at each rewriting: all of them, with the rock as it was, if all fit |
| `Mountfix.FixedOk` | kern/sysfile.c:551-647 | what is put in place of an entry is the stat of what is mounted, under the old name; other entries stay as they are |
| `Mountfix.Mountrock` | kern/sysfile.c:462-493 | the last entry goes to the end of the rock |
| `Mountfix.Mountrockread` | kern/sysfile.c:499-536 | as many whole entries as fit come out in front and the others stay |
| `WinArgs.ParseUndoesQuoting` | kern/win32.c:459-599 | taking apart the joined quoted arguments gives them back if and only if none goes unquoted with a backslash at its end |
| `WinLines.ParseWritten` | kern/win32.c:459-506 | any line comes apart into its arguments, whatever blanks are between them and however they are written, as they are, in quotes or with a quote after backslashes; two or more blanks at the end give one more, the empty one |
| `WinArgs.Args` | kern/win32.c:470-506 | the in-place parser leaves the words where its pointers say, in the room of what it has read |
| `WinArgs.Qarg` | kern/win32.c:512-545 | the quoted argument and its terminator, within 2n+3 bytes |
| `WinArgs.GuessIsEnough` | kern/win32.c:575-599 | the room that is guessed holds every argument |
| `ExportFids.FidTable.Newfid` | exportfs/io.c:159-189 | the table gets the number, in front of its chain, with a cleared Fid from the free list or a new chunk of 1000; or has it already and nothing changes |
| `ExportFids.FidTable.Freefid` | exportfs/io.c:127-156 | the table loses the number, and the Fid goes in front of the free list |
| `ExportFids.FidTable.Getfid` | exportfs/io.c:115-124 | the Fid of that number if the table has one |
| `ExportFids.FidTable.Clonefid` | exportfs/exportsrv.c:103-122 | the new fid, made or given up and made again, points where the first does, and all others stay; the errors for inconsistent fids do not occur |
| `ExportFids.FidTable.Disjoint` | exportfs/io.c:115-189 | no two chains share a Fid, and none shares one with the free list |
| `ExportFids.FidTable.Lookup` | exportfs/exportfs.h:6 | the fid of a message is looked for in the table, or outside it if and only if it is at least 2^31 and no multiple of 64 |
| `ExportFids.InTableIff` | exportfs/exportfs.h:6 | the hash is an index of the table if and only if the number is not negative or a multiple of 64 |
| `ExportFiles.Server.Xwalk` | exportfs/exportsrv.c:103-183 | the names that can be taken one after the other are taken, up to 16; a new fid is then where they lead if these are all, and otherwise no fid any more; a fid walked to itself has moved by them; no other fid moves, and the reply tells their number |
| `ExportFiles.Server.Xclunk` | exportfs/exportsrv.c:186-204 | the fid goes, and every file that only it needed |
| `ExportFiles.Server.Xcreate` | exportfs/exportsrv.c:268-313 | the fid moves to the new file if that was made |
| `ExportFiles.Server.FreeFile` | exportfs/io.c:233-256 | references, children and fids agree again, and the loop ends at the root at the latest |
| `ExportFiles.Server.GetFile` | exportfs/io.c:259-299 | the one file for that path, with a reference more |
| `ExportFiles.Server.Above` | exportfs/io.c:233-299 | no file at or above a fid is ever freed |
| `ExportFiles.Server.NoneForgotten` | exportfs/io.c:233-299 | every file kept, but the root, has a fid at it or beneath it |
| `ExportFiles.Server.OneFile` | exportfs/io.c:259-299 | there is one file for a path |
| `ExportFiles.PartialWalk` | exportfs/exportsrv.c:148-175 | a walk of a fid to itself that does not take all names leaves it alone if and only if the names taken, some of them perhaps "..", lead back to where it was |
| `ExportFiles.PlainPartialWalk` | exportfs/exportsrv.c:148-175 | without ".." that is so if and only if the first name cannot be looked up |
| `ExportQids.Qids.UniqueQid` | exportfs/io.c:427-463 | a host file gets the path its entry has, or a new entry with a path no other has; an entry counts the files that use it |
| `ExportQids.Qids.FreeQid` | exportfs/io.c:380-398 | an entry goes with the last file that uses it |
| `ExportQids.EndsIff` | exportfs/io.c:438-451 | the search for a path ends if and only if the path or one of its variants is free |
| `ExportFlush.NeverLate` | exportfs/exportsrv.c:51-79 | as long as a flush finds the request that was meant, or that is past its reply, no reply comes after an Rflush that named it |
| `ExportFlush.BadHitGoesLate` | exportfs/exportsrv.c:51-79 | from every state where it finds another one while that meant has still to reply, a late reply can follow |
| `ExportFlush.LateReply` | exportfs/exportsrv.c:408-513 | a run from the start that gets there |
| `ExportFlush.NeverLateForOnce` | exportfs/exportsrv.c:408-513 | no reply is late in runs that use no tag twice |
| `ExportFlushClient.LateOnlyAtRisk` | exportfs/exportsrv.c:408-513 | a reply is late only where the client used the tag of a slow request that it never flushed, and that was not the first slow one, again for a slow request that it flushed |
| `ExportFlush.AllEnd` | exportfs/exportsrv.c:408-513 | a request is replied to at most once, and when no slave has it any more it was replied to or a flush of it was answered; a flush is answered unless its slave still has to or a later one took its place |

## Findings

What the code does not do, each shown by a lemma:

- A late reply after an Rflush (`ExportFlush.LateReply`, `BadHitGoesLate`): Xflush (exportfs/exportsrv.c:57-73)
  takes the first slave whose request has the tag. A slave that has replied but not yet cleared its `busy` still
  counts, so that a flush of a request that reuses the tag goes to the old one and is answered while the new one
  has still to reply. flush(5) of the Plan 9 manual forbids that. It does not happen as long as every hit is the
  right one (`NeverLate`), nor to a client that uses no tag twice (`NeverLateForOnce`), or none of a slow request
  that was not flushed again for one that is (`ExportFlushClient.LateOnlyAtRisk`).
- A partial walk moves the fid (`ExportFiles.PartialWalk`, `PlainPartialWalk`, `FidMoves`): with newfid equal to
  fid, Xwalk (exportfs/exportsrv.c:164-175) changes the fid as it goes, where walk(5) wants it left alone unless
  all names are taken. It is left alone exactly when the names taken lead back, as in `FidComesBack`.
- A clone onto a fid in use takes it over (`ExportFiles.Server.CloneFid`): clonefid
  (exportfs/exportsrv.c:103-122) frees the old one, where walk(5) wants an error.
- Fids outside the table (`ExportFids.InTableIff`, `FidTable.Lookup`): fidhash (exportfs/exportfs.h:6) takes the
  remainder of an int, so a fid of 2^31 or more that is no multiple of 64 indexes before the table.
- uniqueqid may search for ever (`ExportQids.EndsIff`): when a path and all of its variants are in use,
  the loop at exportfs/io.c:438-451 does not end.
- A nil block is used (`Mntrpc.NilHeaderIff`, `ShortRreadIsNil`): for an Rread shorter than 11 bytes with
  nothing behind it pullupqueue returns nil at kern/devmnt.c:841 and its rp is read at kern/devmnt.c:843.
- Changes of cipher that overlap put the ends out of step (`TlsRuns.AgreeIffApart`, `FoundBad`): the changecipher
  command tests for a new cipher and then lets go of the locks (kern/devtls.c:1736-1742) before tlsrecwrite
  (kern/devtls.c:1751) takes it. When another changecipher has taken it by then, or a secret command that fails
  has dropped it (kern/devtls.c:1671-1678), the write fails, but has moved the sequence number on
  (`FailedChangeCounts`, kern/devtls.c:1328-1345), and the next record is sealed under a count that the reader
  does not have. `SomeDeal` is a cipher that tells the difference.
- An empty record under a stream cipher without a MAC cannot be read (`Tls.OpenSeal`).
- An end of file can be missed (`AanEof.LostIff`): behind 2^32 - 1 messages its number is the one that marks sync
  messages, and the reader takes it for one (aan.c:154-157) and waits for ever.
- A caller of a mount can be left asleep (`MountGate.StrandedIff`): a leaving reader wakes one other caller
  (kern/devmnt.c:881-893); when that one is interrupted and its flush cannot be transmitted, it leaves
  (kern/devmnt.c:737-753) without waking the next, and nobody reads. Without transmission errors this does not happen.
- An interrupt can be lost (`Sleep.InterruptLost`): enderror (kern/sysfile.c:1175-1181) clears `notepending` at
  the end of a system call that did not sleep. `NoteGoesIff` says exactly when a note goes.
- A queue can hold more than its limit with no writer waiting (`Flow.GrowingSplit`): the tail of a split gets a
  block of its own (kern/qio.c:793-814) that may be larger than the whole block was, when that had been filled
  into its room for headers and trailers. `KeptIffSplitsFit` and `KeptIffNotOverfilled` say exactly when not.
- A trailing backslash is doubled only inside quotes: an argument that goes unquoted and ends in one does not
  come back (`WinArgs.ParseUndoesQuoting`, kern/win32.c:512-545).
- Two or more blanks at the end of a command line come out as one more argument, the empty one
  (`WinLines.ParseWritten`, kern/win32.c:470-506).
- An unmount does not always take back a bind (`MountTable.UnmountUndoes`); of a union that was bound it takes away
  only the first member.
- "." must not reach walk (`WalkNames.DotLosesMountPoint`); parsename sees to that (`ParseName`).

## Left out

- Walking.Walk: names with "." (parsename strips them), the error count for messages, and malloc failure.
- Chans.Kernel.Cclose: the device's close, and the umh and mchan of a channel, which a walk leaves alone; a reference that is not there is passed over where the program panics, and where the accounts are right there is always one.
- Changes to the mount table by others during a walk: the table stays as it is for one walk.
- Devices are functions that answer a walk of names as devwalk does; fswalk (kern/devfs-posix.c:117-140) answers a failed first name with an empty result and is not among them.
- MountTable.Pgrp.Cmount: the hash chains of mount heads are a map; mount ids and the channels' reference counts are not kept.
- aan: the syncer's timers, dial timeouts, and writes that fail after part of a message; messages more than 2^32 - 1 behind are ruled out, which WindowIsTight shows is needed.
- DevmntRuns.ReturnsOwnAnswer: errors of the channel other than interrupts (MountGate has failing transmissions, and not failing reads); the server answers each tag at most once under the rules of flush(5).
- Qio.Queue.Pullupqueue: does not keep the distance of the positions, as the program does not; the other operations do.
- Bytes in a block outside rp..wp, interrupts in queue operations, qproduce, qcopy, packblock and concatblock.
- Flow.FlowIsBounded: one queue whose limit stays, that is not closed and does not drop; the positions are unbounded, and Qio.WordsWillDo and Flow.WordsCompare say when words will do.
- Sleep.OneWakeupPerSleep: no process sleeps on a Rendez that another is linked to; the program only prints a message when that happens.
- RWLock and Qlock: canrlock and the statistics; a spin lock is one step.
- Tls: alerts, the SSL2 hello, the handshake itself; ciphers and MACs are ideal functions.
- Mountfix.Mountfix: input that ends within an entry; the name is written over as a new entry and not in place.
- WinArgs.Args: growing the argument array is not modelled; running over the end of the buffer is an outcome.
- ExportFiles.Server.Xwalk: fids are a map there, which ExportFids.FidTable refines; slaves reading the tree while the main loop changes it, the second root for mounts, wstat, remove and preaddir.
- ExportFids.FidTable.Freefid: the mount id, the directory buffer and the file descriptor of a Fid.
- ExportQids.Qids.UniqueQid: the hash chains of the table are a map.
- ExportFlushClient.LateOnlyAtRisk: one way only; whether a late reply follows depends on which slaves are free when a request is handed over, and `ExportFlush.BadHitGoesLate` says exactly when in the server's terms.
- ExportFlush.AllEnd: the interrupt sent to the slave's process, short writes of replies, mounts.
- Graphics, audio, sockets, host file systems, consoles, cryptography, device tables, devssl and the error formatting of namec.
