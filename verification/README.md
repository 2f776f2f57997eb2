# Samba 4: protocols, loops and conversions, verified

A Dafny model of six components of Samba 4. Each changes state step by step, and for each the
main result is about a whole run, or about two conversions that undo each other.

- **Promotion to domain controller** (`BecomeDc`, `BecomeDcClient`, `Promotion`, `PromotionData`,
  `PromotionReplies`, `Replication`, `ServerObject`). `BecomeDc.Step` is what one callback of the
  asynchronous client does to its state and to a trace of effects; replies and callback results are
  arbitrary. `BecomeDcClient.Client` is the object whose callbacks do it in place. `Promotion` proves
  the order of the effects in every run, `PromotionReplies` that a promotion goes on exactly while
  every reply is a success, and what is done before a failure, `PromotionData` where the data in the
  requests comes from, `Replication` that the pulls deliver the whole logs and that the promotion
  ends, and `ServerObject` what the server-object steps do to a directory.
- **The block copier cifsdd** (`BlockCopier`): one buffer, reads of `ibs` bytes, writes of `obs`.
- **smbclient** (`DirQueue`, `DirWalk`, `CleanName`, `PathResolution`, `TextTranslation`): the packed
  queue of masks, the directory walk over it, the in-place path cleaner, text translation.
- **Logon information and SamInfo3** (`SamReply`): both conversions and the re-signing of a PAC.
- **NTLM acceptance** (`NtlmCheck`): the decision tree and the session keys.
- **Transfers, listings and the join** (`ClientIo`, `DirListing`, `JoinDomain`): each a loop or call
  sequence against an abstract server.

Networks, servers, signals and random numbers are nondeterministic: a read may be short, a page may
have any size, any call may fail. Cryptographic functions are parameters of which only the result
sizes are known.

## Where the code and its comments part

The model follows the code. The lemmas named here say exactly when the promise holds.

- With full reads and writes cifsdd copies the input through the first block from number `count` on
  that completes an output block. So `count` is honoured exactly when input block number `count`
  does, or the input is no longer than that (`BlockCopier.CopyFiles`,
  `BlockCopier.CountNotHonouredExample`). With full reads, `obs <= ibs` and `count >= 1` it is
  honoured whatever the writes do. The argument check tests `ibs` twice and never `obs`
  (`source4/client/cifsdd.c:580`): with `obs` of 0 the first pass trips an assertion
  (`BlockCopier.ZeroOutputBlock`), and the results on copies require `obs > 0`.
- "remove any double slashes" halves runs of separators: three in a row leave two
  (`PathResolution.SqueezeRemovesDoubles`), with an empty part between them. A `..` cancels the part
  before it even if that is `.` or empty, so that `\a\.\..\` becomes `\a\`
  (`PathResolution.CleanIs`, `PathResolution.DotCancelledExample`,
  `PathResolution.EmptyCancelledExample`); one that climbs above the root leaves the empty string
  (`PathResolution.CleanResolves`); of adjacent `.` components one survives
  (`PathResolution.CleanDropsDots`); and a `..` at the very end, behind the last separator, goes
  without the part before it (`PathResolution.CleanFile`). On every path, and for every name given to `cd`, the result is
  the resolution exactly if no `..` meets the root of the code's own stack, as many `..` cancel a `.`
  or an empty part as find the usual stack empty, and neither two `.` in a row nor an empty part is
  left over (`PathResolution.CleanResolvesIff`, `PathResolution.CdResolves`).
- A text-mode `get` leaves a CR wherever the end of a read separates it from its LF, because
  writefile looks at one buffer at a time. From a server that reads in full, the local file is the
  decoding of the remote one exactly if no CRLF straddles a multiple of the buffer size
  (`TextTranslation.GetFile`), and a file that was put comes back exactly if none does in its
  encoding (`TextTranslation.PutThenGet`, `TextTranslation.StraddlesExample`).
- Whether the queue of masks is empty is read from byte 0 of the buffer, not from the byte at its
  start. The answer turns wrong exactly when an empty entry comes to stand at byte 0: added to an
  empty queue, or slid to the front by a removal (`DirQueue.Queue.Add`,
  `DirQueue.Queue.Remove`, `DirQueue.EmptyEntryExample`). An empty entry elsewhere does no harm, and
  the walk never adds one.
- `bad_password_count` is assigned to itself and does not survive a conversion
  (`source4/auth/auth_sam_reply.c:55`); in-domain groups with more than one extra sub-authority lose
  all but the last (`SamReply.GroupsRoundTrip`).
- Turning `ntlm auth` on can refuse a logon that was accepted before, because a wrong 24-byte NT
  response then ends the search (`NtlmCheck.NtlmNotMonotone`).
- A DsAddEntry reply that created no object, but carries an OK status, trips the assertion in
  composite_error; nothing else does (`Promotion.PanicIff`, `Promotion.PanicExample`).
- smbcli_read's comment says that its block is rounded down to a multiple of 1024; it is not. With a
  negotiated max_xmit of exactly 67 the block is empty and both transfer loops stand still for ever
  (`ClientIo.Read`, `ClientIo.UsableIff`, `ClientIo.ReadStandsStill`).
- The server object may be there although the server denies it; then success does not mean that
  nothing is left to do (`ServerObject.RepeatChangesNothing`, `ServerObject.DeniedExample`).
- An old-style listing that finds nothing at all is an error when the server says so by its status
  for no more files (`DirListing.ListOld`).

## Model

| member | source | states |
|---|---|---|
| Promotion.StepKeeps | source4/libnet/libnet_become_dc.c:1451-2877 | every callback, on every reply, keeps the protocol invariant: effects legal so far, all due ones done, cursors those of the last accepted replies |
| Promotion.RunSafety | source4/libnet/libnet_become_dc.c:1451-1501 | in every run the effects come in one fixed order, none follows an effect that failed, and none comes before the mandatory earlier ones (no directory write before check_options is OK, no chunk before prepare_db is OK) |
| Promotion.RunDone | source4/libnet/libnet_become_dc.c:2743-2763 | composite_done is reached exactly when the final effect happened, and then every mandatory effect did, and none of them failed |
| PromotionReplies.PromotionGood | source4/libnet/libnet_become_dc.c:1451-2877 | in every run all replies but the last were good where they came in (every status of theirs, and of the LDAP operations that the route takes, is a success), and the promotion has failed exactly if the last was not; so it is done only if every reply was good |
| PromotionReplies.FailedLast | source4/libnet/libnet_become_dc.c:1451-2877 | of the reply that fails a promotion, exactly the effects up to the sub-step that failed happen, and nothing after it |
| PromotionReplies.StepFollows | source4/libnet/libnet_become_dc.c:1451-2877 | every callback takes its sub-steps in order up to the first that fails, with that error; if all succeed it sends the one request of the next phase |
| PromotionReplies.StepGood | source4/libnet/libnet_become_dc.c:1536-2763 | a reply ends the promotion exactly when something in it is not a success |
| PromotionReplies.PlanGood | source4/libnet/libnet_become_dc.c:1246-1501 | which statuses have to be successes for a callback to go through: the add only when both lookups found nothing, the replace only when the add found a value, exactly one entry created, a pull reply of level 1, 2, 6 or compressed 6 in 7 |
| PromotionReplies.BadLevelIff | source4/libnet/libnet_become_dc.c:2396-2411 | a pull reply without an error is turned away, with nothing of it received, exactly if its level is none of 1, 2, 6 and compressed 6 in 7 |
| PromotionReplies.Level3Error | source4/libnet/libnet_become_dc.c:2154-2191 | the error of one of level 3: that of the detailed information if its level is 1 or 4 to 7, else the outer one |
| PromotionReplies.OtherLevelsError | source4/libnet/libnet_become_dc.c:2193-2205 | the error of a DsAddEntry reply of level 2 that did not create one object, and of one of another level |
| PromotionReplies.RunGood | source4/libnet/libnet_become_dc.c:2743-2763 | a run has failed exactly if some reply of it was not good |
| Promotion.RunRetries | source4/libnet/libnet_become_dc.c:1416-1440 | in every run a replace of the server reference follows, at once, an add that found a value, and such an add is followed by nothing else |
| Promotion.RunCursors | source4/libnet/libnet_become_dc.c:2321-2455 | each pull carries the cursor and source of the last accepted reply for its own partition, zero at first; an accepted reply is stored at once and once, exactly if the caller gave the callback of that partition |
| Promotion.RunKeeps | source4/libnet/libnet_become_dc.c:2879-2922 | the invariant holds after any sequence of replies |
| Promotion.LegalOrdered | source4/libnet/libnet_become_dc.c:2482-2649 | in a legal trace no later effect has a lower rank; only pulls, replies and chunks share one |
| Promotion.LegalComplete | source4/libnet/libnet_become_dc.c:2688-2763 | before an effect every mandatory effect of lower rank is found |
| Promotion.FinishedIsLast | source4/libnet/libnet_become_dc.c:2743-2763 | nothing comes after the final effect |
| Promotion.FinishedIsComplete | source4/libnet/libnet_become_dc.c:2743-2763 | a finished trace holds every mandatory effect and no failed one |
| Promotion.OnCldapKeeps | source4/libnet/libnet_become_dc.c:760-784 | the first LDAP session checks options before it writes |
| Promotion.OnServerObjectKeeps | source4/libnet/libnet_become_dc.c:1485-1498 | the invariant is kept from the lookups of the server object to its modification |
| Promotion.OnServerModifyKeeps | source4/libnet/libnet_become_dc.c:1395-1443 | the invariant, in which a replace comes only after an add that found a value, is kept by the modification |
| Promotion.OnAddEntryKeeps | source4/libnet/libnet_become_dc.c:2128-2226 | the invariant is kept from the DsAddEntry reply to the preparation of the database |
| Promotion.OnPullKeeps | source4/libnet/libnet_become_dc.c:2482-2649 | after an accepted reply: more of the same partition, or what is next in order |
| Promotion.AcceptKeeps | source4/libnet/libnet_become_dc.c:2380-2455 | accepting a reply keeps cursors equal to the last accepted answers |
| Promotion.OnLdap2Keeps | source4/libnet/libnet_become_dc.c:2863-2877 | the computer is modified and moved after the configuration and before the domain |
| Promotion.OnRefsKeeps | source4/libnet/libnet_become_dc.c:2688-2763 | references are updated for schema, configuration and domain, in this order |
| Promotion.PanicIff | source4/libnet/libnet_become_dc.c:2155-2205 | the assertion of composite_error is tripped exactly by a DsAddEntry reply that did not create one object and reports success |
| Promotion.PanicExample | source4/libnet/libnet_become_dc.c:2195-2201 | a level 2 reply without an object and without an error does so |
| PromotionData.RunSourced | source4/libnet/libnet_become_dc.c:1679-2123 | in every run the entry is added below the server object of the first session, pulls use the level of the second bind, and reference updates name the GUID of the added entry |
| PromotionData.RunConverts | source4/libnet/libnet_become_dc.c:2765-2805 | a promotion that is done changed the computer's account control unless it was that of a server trust account (0x2000) trusted for delegation (0x80000) already |
| PromotionData.StepKnown | source4/libnet/libnet_become_dc.c:1618-1675 | the first seven replies come in a fixed order, and the state's data is that of the replies |
| PromotionData.CldapData | source4/libnet/libnet_become_dc.c:1246-1393 | which server object the first session settles on |
| Replication.Completeness | source4/libnet/libnet_become_dc.c:2504-2648 | against sources that serve their logs, what is delivered is at all times a prefix of each log and was stored object by object; when done, all three logs are complete |
| Replication.Termination | source4/libnet/libnet_become_dc.c:2504-2648 | a promotion against finite logs ends within thirteen replies and one for each object |
| Replication.CanFinish | source4/libnet/libnet_become_dc.c:2504-2763 | from every point before the end there are replies that lead to its completion, whatever the logs hold and in whichever of the four levels the source replies |
| Replication.PageServes | source4/libnet/libnet_become_dc.c:2321-2378 | a source that answers with the next n changes, for any n, and in any of the four levels, meets what is asked of a source |
| Replication.StepGoes | source4/libnet/libnet_become_dc.c:2242-2319 | a callback that accepts no pull reply goes on to the one next phase or ends the promotion |
| Replication.PullStep | source4/libnet/libnet_become_dc.c:2504-2518 | an accepted reply adds its objects to its own partition only; the other two cursors stay |
| Replication.AcceptDelivers | source4/libnet/libnet_become_dc.c:2380-2455 | exactly one partition's cursor and deliveries change, by exactly the reply |
| Replication.StepReplicates | source4/libnet/libnet_become_dc.c:2504-2648 | every step keeps: delivered objects are those of the log up to the cursor |
| Replication.StepProgress | source4/libnet/libnet_become_dc.c:2504-2648 | every reply lowers the distance to the end plus what is left of the logs |
| Replication.Unaccepted | source4/libnet/libnet_become_dc.c:2392-2418 | a reply that is not accepted ends the promotion and changes nothing else |
| BecomeDcClient.Client.AddEntryRecv | source4/libnet/libnet_become_dc.c:2128-2226 | the callback decides as the specification does, by statements of its own: level, count, and the most detailed error that the reply holds |
| BecomeDcClient.Client.AddEntryFailed3 | source4/libnet/libnet_become_dc.c:2154-2191 | which status is the error when a level 3 reply did not create one object; nothing but the phase changes |
| BecomeDcClient.Client.PullPartitionSend | source4/libnet/libnet_become_dc.c:2321-2378 | the request carries the partition's own cursor |
| BecomeDcClient.Client.PullPartitionRecv | source4/libnet/libnet_become_dc.c:2380-2455 | the callback comes to what is specified, which BadLevelIff, AcceptKeeps and PullStep put in the fields of the reply: through a pointer, only the given partition changes, and only on success |
| BecomeDcClient.Client.Wait | source4/libnet/libnet_become_dc.c:2936-2943 | handling the replies one by one is a run of the protocol, so that every result about runs is one about the object |
| ServerObject.SuccessRefers | source4/libnet/libnet_become_dc.c:1246-1443 | success leaves the DN of an existing object whose serverReference is the computer; nothing is left to do unless the server denied the target |
| ServerObject.OnlyTargetWritten | source4/libnet/libnet_become_dc.c:1346-1443 | whatever fails, the only object ever written is the target, which referred to nothing before |
| ServerObject.CollisionTouchesNothing | source4/libnet/libnet_become_dc.c:1272-1288 | an object of another computer at the target DN is a collision, and the directory stays |
| ServerObject.SucceedsIff | source4/libnet/libnet_become_dc.c:1246-1443 | without faults the steps succeed exactly when the target is free and it or the computer exists |
| ServerObject.RepeatChangesNothing | source4/libnet/libnet_become_dc.c:1246-1443 | after a success the steps change nothing more, whatever fails, and succeed again without faults, if and only if the first lookup did not deny an existing target that does not refer to the computer |
| ServerObject.DeniedExample | source4/libnet/libnet_become_dc.c:1262-1266 | a directory on which denying the target makes the steps succeed and their repetition write |
| ServerObject.RetryCompletes | source4/libnet/libnet_become_dc.c:1246-1443 | an attempt that failed anywhere can be repeated, to the directory of a first attempt without faults |
| ServerObject.TransitionAgrees | source4/libnet/libnet_become_dc.c:1488-1498 | the protocol's transition and the steps on the directory come to the same phase and DN |
| ServerObject.Session.ServerObject1 | source4/libnet/libnet_become_dc.c:1246-1299 | what the lookup under the own name answers |
| ServerObject.Session.ServerObject2 | source4/libnet/libnet_become_dc.c:1301-1344 | what the lookup of the back link answers, when there is no DN yet |
| ServerObject.Session.ServerObjectAdd | source4/libnet/libnet_become_dc.c:1346-1393 | the object is added when there is no DN yet |
| ServerObject.Session.ServerObjectModify | source4/libnet/libnet_become_dc.c:1395-1443 | serverReference is added, or replaced when it has a value |
| ServerObject.Session.EnsureServerObject | source4/libnet/libnet_become_dc.c:1488-1498 | the four steps in place come to the specified status, DN and directory |
| ServerObject.Directory.Add | source4/libnet/libnet_become_dc.c:1382-1388 | an add of an existing DN fails and changes nothing |
| ServerObject.Directory.Modify | source4/libnet/libnet_become_dc.c:1418-1440 | modify with add and with replace, by section 4.6 of RFC 4511 |
| BlockCopier.CopyFiles | source4/client/cifsdd.c:401-510 | under short reads, short writes and errors: output a prefix of what was read, all of it on success; the exit code tells whether an operation failed; the statistics are the bytes and the numbers of full and partial blocks read and written; reading stays below ibs*count + obs + ibs; with full reads and obs <= ibs exactly min(ibs*count, available) bytes; with full reads and writes, exactly how much, and exactly when that honours `count`; whole output records but the last |
| BlockCopier.CopyLoop | source4/client/cifsdd.c:448-505 | the same of the loop, and that it ends on finite input |
| BlockCopier.CopyRound | source4/client/cifsdd.c:475-504 | one pass keeps: written bytes and buffered bytes are the bytes read |
| BlockCopier.FillRound | source4/client/cifsdd.c:475-490 | less than obs bytes are buffered at every fill, so every read fits the buffer; the assertion holds |
| BlockCopier.Drain | source4/client/cifsdd.c:464-473 | the final flushes empty the buffer into the output |
| BlockCopier.FillBlock | source4/client/cifsddio.c:367-407 | appends the bytes read to the buffer, stays below need + block, sets the end flag exactly when the input gave less; counts the full and the partial reads |
| BlockCopier.FlushBlock | source4/client/cifsddio.c:413-494 | moves the head of the buffer to the output and the rest to the front, leaving less than a block |
| BlockCopier.WriteBlocks | source4/client/cifsddio.c:447-472 | writes whole blocks; with full writes every record is one |
| BlockCopier.MoveToHead | source4/client/cifsddio.c:485-490 | memmove keeps the remainder |
| BlockCopier.FillCounts | source4/client/cifsddio.c:378-404 | when reading stops it is settled how much was copied: the input through the first block from number `count` on that completes an output block |
| BlockCopier.SmallFill | source4/client/cifsddio.c:378-404 | with obs <= ibs one read suffices for a fill, so that reading stops after exactly `count` blocks |
| BlockCopier.HonouredIff | source4/client/cifsdd.c:487-490 | with full reads and writes `count` is honoured exactly if block `count` completes an output block or the input is no longer |
| BlockCopier.FindStop | source4/client/cifsdd.c:487-490 | a block at which the copy stops exists, whatever the sizes |
| BlockCopier.SmallOutputBlocksCross | source4/client/cifsdd.c:487-490 | with obs <= ibs every input block completes an output block |
| BlockCopier.CountNotHonouredExample | source4/client/cifsdd.c:487-490 | `ibs=1 obs=4 count=1` copies four bytes of an input of eight |
| BlockCopier.DefaultLimit | source4/client/cifsdd.c:487-490 | the default count wraps to a limit just below 2^64 |
| BlockCopier.ZeroOutputBlock | source4/client/cifsdd.c:475-483 | an output block size of 0 passes the check of the arguments, and then nothing is read and the end of the input is not noted, against the assertion |
| BlockCopier.LimitIsTotal | source4/client/cifsdd.c:487-490 | a product below 2^64 is not wrapped |
| DirQueue.Queue.constructor | source4/client/client.c:388-408 | an empty queue in a cleared buffer |
| DirQueue.Queue.Add | source4/client/client.c:436-466 | appends the entry to the abstract queue; the doubling loop ends; the emptiness test is right afterwards exactly if it was right before, or, in an empty queue, the entry is not empty |
| DirQueue.Queue.Append | source4/client/client.c:461-464 | the packed bytes gain the entry and its NUL, nothing else moves |
| DirQueue.Queue.Grow | source4/client/client.c:440-459 | reallocation keeps the entries |
| DirQueue.Queue.Adjust | source4/client/client.c:410-434 | sliding keeps the entries and leaves the start in the first half; when it makes the emptiness test wrong |
| DirQueue.Queue.Remove | source4/client/client.c:473-482 | drops the first entry of the abstract queue; the emptiness test turns wrong exactly when an empty entry slides to byte 0 |
| DirQueue.Queue.Head | source4/client/client.c:468-471 | the first entry of the abstract queue |
| DirQueue.Queue.IsEmpty | source4/client/client.c:484-487 | the answer is right exactly if byte 0 is |
| DirQueue.EmptyEntryExample | source4/client/client.c:484-487 | an empty entry in an empty queue is there, and the queue claims to be empty |
| DirQueue.PackAppend | source4/client/client.c:461-464 | packing is a homomorphism |
| DirQueue.PackInjective | source4/client/client.c:388-487 | the packed buffer determines the entries |
| DirQueue.HeadLength | source4/client/client.c:468-482 | the first NUL ends the first entry |
| DirWalk.DoListRecursive | source4/client/client.c:542-579 | the walk over the packed queue lists exactly the masks of the breadth-first visit of any finite tree and calls `fn` exactly as that visit says, which EachOnce and NothingElse put in the fields of the entries |
| DirWalk.WalkOrder | source4/client/client.c:557-578 | the visit is breadth-first and meets every directory of the tree exactly once |
| DirWalk.VisitIsLevels | source4/client/client.c:557-578 | working off a FIFO is going level by level |
| DirWalk.VisitIsComplete | source4/client/client.c:557-578 | the visit and an independent depth-first enumeration have the same directories |
| DirWalk.AllDirsDistinct | source4/client/client.c:557-578 | no two directories have the same path |
| DirWalk.WalkCalls | source4/client/client.c:492-519 | over the whole walk `fn` is called as often on each entry as in the enumeration |
| DirWalk.EachOnce | source4/client/client.c:313-334 | how often a whole walk calls `fn` on an entry of a directory of the tree, in the fields of the entry: on a directory once exactly if directories are asked for; on a file not at all if its name does not match the filter, it is older than the date, or the level asks for an archive bit that is off; on every other file once |
| DirWalk.NothingElse | source4/client/client.c:492-519 | every call of `fn` is of an entry of a directory of the tree, under its mask, and that entry is a directory that was asked for or a file that passes the filter, the date and the archive level |
| DirWalk.ListingIs | source4/client/client.c:566-568 | a listing shows nothing of a file or an unreadable directory, else `.`, `..` and the children |
| DirWalk.AllDirsIs | source4/client/client.c:557-578 | the directories of a tree are those that can be reached by following names through readable directories |
| DirWalk.MaskInjective | source4/client/client.c:508-516 | a mask tells its directory |
| DirWalk.CallsCount | source4/client/client.c:313-334 | in a listing `fn` is called once for every selected entry, and not for others |
| DirWalk.DoListHelper | source4/client/client.c:492-519 | one listing's callbacks: the masks that join the queue and the calls of `fn`, in order |
| DirWalk.ListHead | source4/client/client.c:557-578 | one round of the loop, the head passed by value |
| DirWalk.DoListOnce | source4/client/client.c:581-587 | a listing that does not recurse |
| DirWalk.ChildMask | source4/client/client.c:499-517 | cutting a mask at its last backslash gives exactly the child's mask; files, `.` and `..` add none |
| DirWalk.MaskComponents | source4/client/client.c:508-516 | a mask names its directory, by the reference splitting of paths |
| DirWalk.ListDir | source4/client/client.c:566-568 | listing a directory's mask is listing that directory, an error if it is unreadable |
| DirWalk.ListedMasks | source4/client/client.c:508-516 | the masks added by a listing are those of the subdirectories, in order |
| CleanName.DosCleanName | source4/client/client.c:75-93 | the in-place code computes Clean on the string in the buffer, and ends |
| CleanName.AllStringSub | source4/lib/util/util_str.c:347-379 | in-place substitution with a length of 0 is substitution from left to right; with an empty pattern or a longer replacement nothing changes |
| CleanName.ReplaceAt | source4/lib/util/util_str.c:365-378 | one replacement |
| CleanName.TrimString | source4/lib/util/util_str.c:39-70 | trims every copy of the pattern at the end |
| CleanName.CancelAt | source4/client/client.c:84-88 | one cancellation in place, by memmove to the last separator before it |
| CleanName.FirstIsFirst | source4/client/client.c:84 | the position found is an occurrence and no earlier one is |
| CleanName.SubFirst | source4/lib/util/util_str.c:365-378 | substitution is the head up to the first occurrence, the replacement, and substitution in the rest |
| CleanName.SubNothing | source4/lib/util/util_str.c:365-378 | without an occurrence nothing changes |
| PathResolution.CleanResolves | source4/client/client.c:75-93 | on paths without tripled separators or `.` components, cleaning yields the component-stack resolution if and only if no `..` climbs above the root |
| PathResolution.CleanIs | source4/client/client.c:75-93 | on every path: runs of separators are thinned out; `..` cancels the part before it, `.` or empty included, or leaves nothing at the root; then one pass drops `.` components |
| PathResolution.CleanResolvesIff | source4/client/client.c:75-93 | on every path, the result is the resolution exactly if no `..` meets the root, as many `..` cancel a `.` or an empty part as climb in the usual meaning, and neither two adjacent `.` nor an empty part is left |
| PathResolution.CleanFile | source4/client/client.c:75-93 | a name behind the last separator stays, `.` too, and the path before it is cleaned as it would be alone; but a `..` there goes with the separator and leaves the part before it |
| PathResolution.PathAndFile | source4/client/client.c:810-817 | every string that starts with a separator is a path and a name without separators |
| PathResolution.Meanings | source4/client/client.c:84-88 | the code's stack and the usual one: by how much they differ in length, counted from the path, and that they are the same where they are equally long |
| PathResolution.AgreeIff | source4/client/client.c:84-92 | the two agree exactly under that condition |
| PathResolution.NeverClimbsIff | source4/client/client.c:84-88 | a path never climbs exactly if it climbs no time |
| PathResolution.SqueezeDrops | source4/client/client.c:81-82 | the first pass, on the parts of every path, empty ones included; it keeps the components |
| PathResolution.UntripledParts | source4/client/client.c:81-82 | without three separators in a row it leaves exactly the components |
| PathResolution.DotCancelledExample | source4/client/client.c:84-92 | a path with `.` and `..` that is not resolved |
| PathResolution.EmptyCancelledExample | source4/client/client.c:81-88 | a path with three separators in a row and `..` that is not resolved |
| PathResolution.CancelLoop | source4/client/client.c:84-88 | the whole `..` loop, on every list of parts, empty ones included |
| PathResolution.CancelIsResolve | source4/client/client.c:84-88 | without `.` and empty parts that is resolution |
| PathResolution.CleanDropsDots | source4/client/client.c:92 | without `..`, all `.` components go if and only if no two are adjacent |
| PathResolution.SqueezeRemovesDoubles | source4/client/client.c:81-82 | doubled separators remain exactly when three were in a row |
| PathResolution.SqueezeKeepsPieces | source4/client/client.c:81-82 | removing doubled separators keeps the components |
| PathResolution.CancelRound | source4/client/client.c:84-88 | one round cancels `..` and the component before it |
| PathResolution.FirstDotDot | source4/client/client.c:84 | the pattern is found at the first `..` component and never inside a name |
| PathResolution.SubDrops | source4/lib/util/util_str.c:365-378 | what a pass that cuts `.` components, or doubled separators, does to parts |
| PathResolution.ComponentsOfRender | source4/client/client.c:246-256 | splitting is the inverse of rendering |
| PathResolution.PartsOfRender | source4/client/client.c:246-256 | taking a path apart, empty parts included, is the inverse of rendering |
| PathResolution.PartsRender | source4/client/client.c:246-256 | and rendering is the inverse of taking apart |
| PathResolution.RenderInjective | source4/client/client.c:246-256 | a path determines its components |
| PathResolution.CdComponents | source4/client/client.c:232-256 | the path that `cd` builds has the current components and then those of the new name, with `/` taken for a separator |
| PathResolution.CdResolves | source4/client/client.c:232-256 | `cd`, to every relative name, resolves the name in the current directory exactly when the two meanings agree from there on |
| PathResolution.CdResolvesNames | source4/client/client.c:232-256 | for a name without `.` that yields no three separators in a row, that is exactly when it climbs no higher than the directory is deep |
| PathResolution.CdIs | source4/client/client.c:232-256 | what `cd` makes of every relative name |
| PathResolution.CdAbsolute | source4/client/client.c:242-251 | for a name that starts with a separator the path is the name's own, whatever the current directory, and its components are those of the name |
| PathResolution.CdAbsoluteIs | source4/client/client.c:242-256 | what `cd` makes of such a name, and exactly when that is its resolution from the root |
| PathResolution.DosFormatIs | source4/client/client.c:232-235 | every `/` becomes a separator, and no other character changes |
| PathResolution.CdFormatted | source4/client/client.c:232-256 | the new directory contains no `/`, as the next `cd` needs |
| TextTranslation.RoundTrip | source4/client/client.c:99-150 | decoding an encoding is the identity, on every byte string |
| TextTranslation.EncodeShape | source4/client/client.c:127-150 | in an encoding every LF follows a CR, and it is longer by the number of LFs |
| TextTranslation.PutGet | source4/client/client.c:99-150 | writing the encoding of a file in chunks restores the file if and only if no chunk ends between CR and LF |
| TextTranslation.DecodeChunksIff | source4/client/client.c:99-121 | decoding in chunks is decoding the whole if and only if no CRLF pair is split |
| TextTranslation.ChunksLength | source4/client/client.c:99-121 | splitting a pair adds bytes, never loses any |
| TextTranslation.EncodedChunksAreWhole | source4/client/client.c:127-150 | chunks that are encodings concatenate to an encoding and split no pair |
| TextTranslation.EncodeAppend | source4/client/client.c:127-150 | encoding is a homomorphism |
| TextTranslation.DecodeAppend | source4/client/client.c:99-121 | decoding is one where no pair is split |
| TextTranslation.ReadFile | source4/client/client.c:127-150 | the chunk is the encoding of the bytes taken from the file, at most n bytes and at least n - 1 before the end of the file |
| TextTranslation.WriteFile | source4/client/client.c:99-121 | the bytes written are the decoding of the bytes taken, also when a write fails, which the result tells |
| TextTranslation.PutFile | source4/client/client.c:1124-1145 | over short and failing server writes, the remote file is at all times a prefix of the encoding of the local file, and all of it on success; with chunks of two bytes or more it succeeds exactly if no request failed |
| TextTranslation.PutChunk | source4/client/client.c:1127-1143 | one chunk joins the remote file, all of it or a part |
| TextTranslation.GetFile | source4/client/client.c:734-753 | over short and failing server reads, a get succeeds exactly if the whole remote file was read and written out; then the local file is the decoding of the remote one exactly if no read ended between a CR and its LF, with full reads exactly if no pair straddles a multiple of the buffer size |
| TextTranslation.PutThenGet | source4/client/client.c:1124-1145 | a file that was put and got back is the same exactly if no pair of its encoding straddles a multiple of the buffer size |
| TextTranslation.SizedStraddles | source4/client/client.c:99-121 | chunks of full size split a pair exactly if one straddles a multiple of that size |
| TextTranslation.StraddlesExample | source4/client/client.c:99-121 | a file that does not come back |
| SamReply.ConvertToSamInfo3 | source4/auth/auth_sam_reply.c:110-150 | the loops produce the base information and the out-of-domain SIDs in order |
| SamReply.ConvertToSamBaseInfo | source4/auth/auth_sam_reply.c:29-108 | the loop produces the RIDs of the in-domain groups in order |
| SamReply.Info3Sids | source4/auth/auth_sam_reply.c:29-60 | the domain SID and the RID make up the account SID; the primary group is given by the last sub-authority of its SID |
| SamReply.Info3Groups | source4/auth/auth_sam_reply.c:82-146 | the groups listed by RID, and those listed by SID, are those inside and outside the domain, with all three attributes; the extra-SIDs flag tells whether there are any outside |
| SamReply.Info3Fields | source4/auth/auth_sam_reply.c:40-108 | each copied field equals its namesake; the count of bad passwords is zero; a session key that has its full length is carried, any other is zeros |
| SamReply.MakeServerInfo | source4/auth/auth_util.c:234-365 | the loops rebuild the SIDs, for the three levels and the errors |
| SamReply.ServerInfoSids | source4/auth/auth_util.c:275-313 | the account SID is the domain SID and the RID, that of the primary group the domain SID and its RID; then come the groups by RID, and then those by SID |
| SamReply.ServerInfoFields | source4/auth/auth_util.c:315-361 | each copied field equals its namesake, a missing account name is filled in, and a session key of zeros becomes empty |
| SamReply.RegetPac | source4/kdc/pac-glue.c:145-214 | an account without authorization data loses its PAC; otherwise the PAC is converted and converted back, or left on error |
| SamReply.GroupsRoundTrip | source4/auth/auth_sam_reply.c:82-103 | a round trip yields the in-domain groups and then the others, each in order, if and only if every in-domain group is the domain and one RID |
| SamReply.FieldsRoundTrip | source4/auth/auth_util.c:256-361 | every other field: which survive, and exactly when (session keys: empty, or of full length and not zero) |
| SamReply.PartitionConserves | source4/auth/auth_sam_reply.c:82-146 | the two parts hold every group as often as before |
| SamReply.PartitionMembers | source4/auth/auth_sam_reply.c:82-146 | each part holds exactly the SIDs in, or outside, the domain |
| SamReply.KeyRoundTrip | source4/auth/auth_util.c:347-361 | a session key survives exactly when it is empty, or full length and not zero |
| SamReply.RoundTripIdempotent | source4/auth/auth_util.c:234-365 | converting twice is converting once, for every logon |
| SamReply.InfoAfterRoundTrip | source4/auth/auth_sam_reply.c:29-150 | the second SamInfo3 is the first, but for an account name that was filled in |
| SamReply.ResignIdempotent | source4/kdc/pac-glue.c:145-214 | re-signing twice is re-signing once, for any PAC |
| SamReply.OwnPacSurvives | source4/kdc/pac-glue.c:47-99 | a PAC made here is unchanged by re-signing exactly when the account has a name |
| SamReply.ResignKeepsGroups | source4/kdc/pac-glue.c:188-210 | re-signing a foreign PAC keeps its groups, in-domain first, exactly when its extra in-domain SIDs are the domain and one RID |
| SamReply.InDomainCheck | source4/libcli/security/dom_sid.c:246-266 | a SID is in a domain when the domain's sub-authorities are a prefix of its own |
| SamReply.DirectlyInIff | source4/libcli/security/dom_sid.c:196-215 | a SID is its domain and its last RID exactly when it has one more sub-authority |
| NtlmCheck.NtlmPasswordCheck | source4/auth/ntlm_check.c:283-598 | the decision tree comes to the status and keys of the first route that matches, in an explicit list of routes |
| NtlmCheck.CheckLmField | source4/auth/ntlm_check.c:423-597 | the part of the tree for the LM field |
| NtlmCheck.TryNtlmV2 | source4/auth/ntlm_check.c:344-401 | three NTLMv2 variants in order |
| NtlmCheck.TryLmV2s | source4/auth/ntlm_check.c:474-565 | three LMv2 variants in order; the key derivation whose result is ignored never fails there |
| NtlmCheck.HashPasswordCheck | source4/auth/ntlm_check.c:221-264 | the comparison of hashes of cleartext passwords |
| NtlmCheck.CleartextAccepts | source4/auth/ntlm_check.c:308-338 | a cleartext logon with an NT password and a stored NT hash is accepted exactly if the hash of the password is the stored one; any other exactly if LANMAN authentication is on, the name has no realm, and the hash of the LANMAN password is the stored one; it gives no keys |
| NtlmCheck.CleartextRefused | source4/auth/ntlm_check.c:234-263 | a refused cleartext logon is NotFound exactly if the name has a realm, no NT hashes were compared, and no LANMAN password was turned away because LANMAN authentication is off |
| NtlmCheck.PwdCheckV1 | source4/auth/ntlm_check.c:32-79 | accepts exactly a right 24-byte response; a failed check leaves the key |
| NtlmCheck.PwdCheckV2 | source4/auth/ntlm_check.c:86-153 | accepts exactly a right response; a failed check leaves the key |
| NtlmCheck.SessKeyV2 | source4/auth/ntlm_check.c:160-204 | when the key derivation succeeds |
| NtlmCheck.KeyShapes | source4/auth/ntlm_check.c:304-586 | no keys with a refusal; user key 0 or 16 bytes, LM key 0 or 8; the LM key a prefix of the user key unless NTLMv1 was accepted in the NT field |
| NtlmCheck.AcceptsIff | source4/auth/ntlm_check.c:344-586 | outside the cleartext path, acceptance is a matching route |
| NtlmCheck.ResponseAccepts | source4/auth/ntlm_check.c:344-586 | exactly which responses are accepted outside the cleartext path, field by field, without the list of routes: a 24-byte NT response that NTLMv1 may answer alone, else NTLMv2, LANMAN, LMv2, or NTLMv1 in the LM field |
| NtlmCheck.ResponseRefused | source4/auth/ntlm_check.c:587-597 | a refused response is NotFound exactly if the name has a realm and the LM field was tried against a stored NT hash |
| NtlmCheck.KeysV1 | source4/auth/ntlm_check.c:402-421 | the keys of an NTLMv1 response: the user key from the stored NT hash, the LM key from the stored LANMAN hash if LANMAN authentication is on |
| NtlmCheck.KeysV2 | source4/auth/ntlm_check.c:344-401 | the keys of an NTLMv2 response: from its first 16 bytes and the key of the first variant for which it is right, the LM key being the first half |
| NtlmCheck.KeysLm | source4/auth/ntlm_check.c:435-463 | the keys of a LANMAN response, where the NT field does not decide: the stored hash cut to eight bytes, padded for the user key |
| NtlmCheck.KeysLmV2 | source4/auth/ntlm_check.c:474-565 | the keys of an LMv2 response, where nothing before it decides: of the NTLMv2 response beside it, if there is one, under the first variant for which the LM field is right |
| NtlmCheck.KeysNtInLm | source4/auth/ntlm_check.c:567-586 | the keys of an NTLMv1 response in the LM field, where nothing else is right: the stored LANMAN hash cut to eight bytes, padded for the user key |
| NtlmCheck.MatchesAre | source4/auth/ntlm_check.c:344-401 | a response is right in some variant exactly if it answers the challenge with the domain as given, upper-cased, or empty |
| NtlmCheck.LanmanMonotone | source4/auth/ntlm_check.c:435-463 | turning lanman auth on never refuses an accepted logon |
| NtlmCheck.StrictConfig | source4/auth/ntlm_check.c:344-586 | with both switches off, acceptance outside the cleartext path is a right NTLMv2 or LMv2 response for one of three variants |
| NtlmCheck.V2AlwaysAccepted | source4/auth/ntlm_check.c:344-401 | a right NTLMv2 response is accepted under every configuration |
| NtlmCheck.NtlmNotMonotone | source4/auth/ntlm_check.c:402-421 | turning ntlm auth on refuses an accepted logon exactly when a wrong 24-byte NT response comes with a right LM field |
| NtlmCheck.NtlmNotMonotoneExample | source4/auth/ntlm_check.c:402-421 | such a logon exists |
| ClientIo.Read | source4/libcli/clireadwrite.c:28-77 | returns exactly the file's bytes from the offset on; requests go on from each other; it stops short of the size exactly after a short reply; -1 exactly when a request failed; never standing still with a usable limit, always with an empty block; every request asks for as much as the limit allows |
| ClientIo.Write | source4/libcli/clireadwrite.c:87-129 | for every block limit and every acknowledged count, the file after it is one update with the whole buffer; exactly when a request failed, -1 and an update with a prefix; never standing still with a usable limit, always with an empty block; every request offers as much as the limit allows |
| ClientIo.UpdatedTwice | source4/libcli/clireadwrite.c:93-128 | writing on from where a write ended is one write of everything |
| ClientIo.UpdatedReadsBack | source4/libcli/clireadwrite.c:93-128 | what was written is read back; other bytes stay, a gap is zeros |
| ClientIo.UsableIff | source4/libcli/clireadwrite.c:47-49 | of all limits only 67 makes the block empty, and only it is not usable |
| ClientIo.LimitIs | source4/libcli/clireadwrite.c:47-49 | the limit of a block is 67 below the negotiated size, at most 65535 |
| ClientIo.ReadStandsStill | source4/libcli/clireadwrite.c:51-74 | once a pass asks for nothing, every number of further passes asks for nothing at the same place and changes nothing |
| ClientIo.WriteStandsStill | source4/libcli/clireadwrite.c:106-128 | the same of writing |
| ClientIo.UsableAsks | source4/libcli/clireadwrite.c:54 | with a usable limit every request asks for something, and the block stays positive |
| ClientIo.GoingOn | source4/libcli/clireadwrite.c:51-74 | requests chained so far stay chained, and only a last one may be short |
| ClientIo.PassOn | source4/libcli/clireadwrite.c:51-74 | after one more request the chain goes on, each request still asks for as much as the limit allows, and the next will ask for something |
| DirListing.ListNew | source4/libcli/clilist.c:101-200 | for any page sizes, `fn` once per entry in server order, with the entry's own name, size, time and attributes, the number of calls returned, the complete listing if the server ends only when exhausted, -1 and no call exactly on an error |
| DirListing.ListOld | source4/libcli/clilist.c:259-341 | the same for old-style searches, which end by a status; that status on the first page is an error |
| DirListing.List | source4/libcli/clilist.c:348-354 | the same whichever form the protocol selects |
| DirListing.CallAll | source4/libcli/clilist.c:192-199 | one call for every entry received |
| DirListing.CallsHand | source4/libcli/clilist.c:42-71 | each call carries the entry's own fields, and its name for the short name where the level has none |
| DirListing.SearchState.Callback | source4/libcli/clilist.c:76-99 | the list grows by the entry at its end; its length stays the number received |
| DirListing.SearchState.Take | source4/libcli/clilist.c:233-257 | a page extends the list to a longer prefix of the server's entries, and the search goes on after its last |
| JoinDomain.Join | source4/libnet/libnet_join.c:580-801 | on all three routes the SID names the account whose handle got the password; its type is the requested one, its flags the queried ones without DISABLED and PWNOTREQ; other accounts stay; without recreate no account of another type is altered; on a server without faults, exactly when it succeeds and with which error it fails, for accounts that are there, new or recreated |
| JoinDomain.Obtain | source4/libnet/libnet_join.c:580-677 | which route is taken and that handle and RID belong to the account of that name |
| JoinDomain.CheckAndEnable | source4/libnet/libnet_join.c:679-794 | an account of another type is refused and stays; otherwise exactly the account of the handle gets the password, its name and the enabled flags |
| JoinDomain.GiveAccess | source4/libnet/libnet_join.c:764-794 | the password is as long as the policy asks for, at least eight characters, and goes to the account of the handle |
| JoinDomain.EnabledKeepsType | source4/libnet/libnet_join.c:762 | clearing the two flags keeps the type and every other flag |
| JoinDomain.TypeCheckIff | source4/libnet/libnet_join.c:703-759 | the check passes exactly on the requested type; otherwise it answers USER_EXISTS exactly if the account was there before and both types are domain, workstation or server trust, and INVALID_PARAMETER if not |
| JoinDomain.NoTypeRefused | source4/libnet/libnet_join.c:703-728 | what is no single trust type is refused with INVALID_PARAMETER |

## Left out

- BlockCopier.CopyFiles: `obs > 0` and a buffer size below 2^64 are required, which cifsdd does not check; buffers and byte counters beyond 64 bits are not modelled.
- ClientIo.Write: a server acknowledges at least one byte of each write that offers any; on one that acknowledges none, smbcli_write never ends.
- DirListing.ListNew: levels that interpret_long_filename does not know are not among its levels; entries differ by name, which is how the search is resumed; an allocation failure in the callback is not modelled.
- DirListing.ListOld: entries differ by their resume id.
- DirWalk.DoListRecursive: started on a mask that ends in `\*` after a path of names; the head of the queue is passed by value to the listing, as the comment at `source4/client/client.c:549-555` intends.
- TextTranslation.PutFile: a put that goes on from a partial remote file, and the close of the remote file.
- TextTranslation.GetFile: a get that goes on from a partial local file; the size is the one of the remote file.
- JoinDomain.Join: begins with the open domain; a full name and flags that SetPassword could set on its own are set with the password.
- Sockets, event loops, SMB, DCERPC, LDAP and NDR encodings, gensec and Kerberos: replies are abstract, and pushing and pulling a PAC is taken as the identity.
- Memory management and allocation failures, including the one of the queue of masks (`source4/client/client.c:446-450`); debug output and error strings.
- Cryptography: MD4, DES, HMAC and character set conversion are functions of which only the result sizes are known.
- The attributes of DsAddEntry, the flags of DsBind, and the values read by the lookups of the first LDAP session other than the account control and the server object; retries with another request level.
- Translation between WERROR, NTSTATUS and LDAP errors: one status type stands for them all, and OK is only ever translated to OK.
- DNs are compared as strings, without LDAP's case folding; serverReference has at most one value.
- Destination DSA GUID and naming context of a pull: set once from constants of the promotion.
- The part of libnet_JoinDomain that connects to the SAMR pipe and opens the domain, the ADS part after the join, and a server on which others change accounts during the join.
- smbcli_smbwrite.
- The directory heading that do_list prints, and that do_list runs on a queue that another do_list is using.
- cifsdd's seeking, its SIGUSR1 statistics and its command line; smbclient's command table.
- The password checks that start from an encrypted user_info, the workstation restriction of an account, and the handles that DomainOpenSamr keeps between calls.
- Password changes over kpasswd, the reply queue of the KDC, the choice among authentication methods, and the keys in the KDC's database.
