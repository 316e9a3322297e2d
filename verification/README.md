# A verified model of the varde coordination core

Varde keeps shared state for many agents in files and small SQLite stores. This project models the parts
of it whose correctness rests on state, interleaving or a loop argument, and proves what they promise:

- **Role inbox** (`RoleInbox.dfy`): one append-only message stream per role, a cursor per holder, a table of
  delivery events, and succession between holders.
- **Friction event log** (`FrictionFold.dfy`, `FrictionState.dfy`, `FrictionLog.dfy`): folding a log that git merges
  line by line, what the folded state keeps, and durable append and replay of the file, crashes in the middle of a
  write included.
- **Answer delivery** (`AnswerFlow.dfy`): stored answers sent over a mailbox whose send may raise after taking
  effect, with retries, recovery and crashes between any two steps.
- **Locks and fencing** (`ModeLock.dfy`, `LearnStore.dfy`): a reentrant shared and exclusive mode lock with
  per-thread depth maps, and writers fenced against store flips by a generation.
- **Queue codecs and their store** (`QueueLine.dfy`, `QueueLineFields.dfy`, `QueueMd.dfy`, `QueueMdTable.dfy`,
  `QueueLineSync.dfy`, `QueueLineImport.dfy`, `QueueLineRuns.dfy`): lossless line and table formats in both
  directions, and the import and export that skip work by content hash, one call at a time and over runs.
- **Algorithms with a bound** (`ReverseClosure.dfy`, `FairQuotas.dfy`, `Sampling.dfy`, `Dependencies.dfy`,
  `Complexity.dfy`, `CognitiveScore.dfy`, `CachedData.dfy`).

`Basics.dfy`, `Seqs.dfy`, `Ordering.dfy` and `PyText.dfy` hold the shared vocabulary: option and result types,
selection from sequences, string order, and the Python string operations the code uses.

Code that changes state in place is a class or a method with the source's loops, proved against a function of
its inputs or of the old state; runs of several threads or operations are sequences of steps, and the theorems
quantify over every run. Outside calls become parameters: clock readings, JSON codecs, hashes, name tables,
shuffles, file contents, and whether a lock, a send or a write succeeds.

## What does not hold

Each of these is stated in the project as a counterexample, and next to it stands the exact condition under
which the promise does hold.

- A role holder whose name is the role key itself is not isolated: whatever it claims disappears from every other
  holder's unread list (`RoleInbox.RoleKeyHolderDrains`). Every other holder is (`RoleInbox.ReadersIndependent`).
- Logs that hold different events under one id may be ordered and folded differently when their lines come in
  another order. The ordered log is independent of the order of the lines if and only if no two different events
  share an id (`FrictionFold.OrderConvergesIff`). The folded state can still agree, because fold does not read
  every field: it is independent of the order of the lines if and only if it is the same for every choice of one
  event per id (`FrictionFold.FoldConvergesIff`). For two additions of one item, that is when all fields fold
  copies agree (`FrictionFold.ClashDiverges`).
- An event whose encoding holds U+0085, U+2028 or U+2029, or which redaction makes invalid, is appended and then
  stops every replay: the writer leaves those characters unescaped, and replay splits lines with `splitlines`.
  Append then replay succeeds if and only if no event of the batch is of that kind
  (`FrictionLog.AppendThenReplay`, `FrictionLog.LineSeparatorBreaksReplay`).
- Two overlapping retries of one failed entry can put two messages in the mailbox
  (`AnswerFlow.OverlappingRetriesSendTwice`). The exact condition is on the mailbox lookup: a retry of a failed entry
  must not find nothing while another thread has still to send for that entry and can. A lookup that breaks it opens
  the way to a second message, and one that keeps it never does (`AnswerFlow.ExclusionIsExact`). Not starting a retry
  of a failed entry before another one has claimed it or given up is enough (`AnswerFlow.SerialRetriesSuffice`).
- A line queue's items are stored under the queue's name, `#` and the task, so two queues can make the same id. An
  import then raises at that row, with the rows before it written and the recorded hash left in place; if the file is
  reverted, the next export returns other text (`QueueLineRuns.ClashBreaksExport`). An import that is cut short
  between two rows does the same (`QueueLineRuns.CutShortBreaksExport`). After either, the next export is exact if
  and only if, when the recorded hash matches, the rows left behind have the lines the text gives their tasks, and
  otherwise the text repeats no task and makes no id of another queue (`QueueLineRuns.CutShortExact`). From any store
  at all, what an export returns is settled case by case (`QueueLineRuns.ExportAnyStore`); without a `#` in a queue's
  name and without interruptions it is exact after every run (`QueueLineRuns.ExportWithoutSign`).
- A markdown queue table with a row shorter than its header is not rendered back unchanged; render after parse is
  the identity if and only if no row is shorter (`QueueMd.RenderParse`).
- The error `install_closure` raises names the whole chain of modules being visited, which ends in a cycle but
  need not be one (`Dependencies.InstallChainNeedNotClose`). Every chain that can be reported is a cycle if and only
  if every cycle within reach passes through the module being installed (`Dependencies.InstallChainsClose`);
  `closure` always reports a cycle.
- A tracked file that is absent at both version reads around a load and present when the load reads it leaves a
  cached value that later hits return although it is stale (`CachedData.AbsentFileGoesStale`). Over any run of calls,
  a hit is fresh if and only if no file was of that kind when the cached value was loaded
  (`CachedData.EveryHitExact`).

## Model

| member | source | states |
|---|---|---|
| RoleInbox.StepKeepsValid | data/src/varde_data/role_inbox.py:96-306 | every transaction keeps the streams strictly ascending with unique ids and every cursor at or below its stream's head |
| RoleInbox.CursorsMonotone | data/src/varde_data/role_inbox.py:130-215 | over every run that does not remove a holder, its cursor never moves back and never passes the stream head |
| RoleInbox.AtMostOnce | data/src/varde_data/role_inbox.py:130-161 | over every run, removal and re-registration and external deliveries included, no holder is given a message id twice by claims |
| RoleInbox.ReadersIndependent | data/src/varde_data/role_inbox.py:110-215 | a claim, ack or advance by a holder not named like the role key leaves every other holder's cursor and unread list as they were |
| RoleInbox.RoleKeyHolderDrains | data/src/varde_data/role_inbox.py:110-174 | a claim by a holder named like the role key removes exactly the claimed messages from every other holder's unread list |
| RoleInbox.NothingLostNothingReplayed | data/src/varde_data/role_inbox.py:110-161 | at every point of every interleaving, a holder's claims since then followed by its unread list are its unread list then followed by everything appended since, in stream order |
| RoleInbox.NewHolderSeesWholeStream | data/src/varde_data/role_inbox.py:110-161 | for a holder with no deliveries recorded for it or the role key, claims so far followed by unread are exactly the role's messages above its starting cursor |
| RoleInbox.AckLeavesLater | data/src/varde_data/role_inbox.py:197-215 | an ack leaves exactly the unread messages that come after the acked one in the stream |
| RoleInbox.LiveHolderMeansCleanStart | data/src/varde_data/role_inbox.py:232-295 | a newly registered holder that inherits from nobody starts with nothing unread when some registered holder is live |
| RoleInbox.SuccessorTakesBacklog | data/src/varde_data/role_inbox.py:232-295 | a successor has unread every message its predecessor has unread unless a delivery to the successor itself hides it; without an explicit predecessor this holds for every registered holder when none is live |
| RoleInbox.SuccessionLosesNothing | data/src/varde_data/role_inbox.py:130-295 | whatever the predecessor had unread at succession is claimed by the successor or still unread for it, after any later run |
| RoleInbox.NewcomerReads | data/src/varde_data/role_inbox.py:232-295 | a newly registered holder has unread exactly the stored messages of the role that no delivery to it or the role hides and that lie in its backlog: after the predecessor's cursor, none when a registered holder is live, after some registered cursor when none is, and all of them when nobody was registered |
| RoleInbox.FirstHolderReadsAll | data/src/varde_data/role_inbox.py:269-275 | the first holder of a role reads all mail queued before it was bound |
| RoleInbox.RegistersExactly | data/src/varde_data/role_inbox.py:232-295 | a call that succeeds registers every name it is given and leaves every registered cursor, message and delivery as it was |
| RoleInbox.RegisteringRaisesIff | data/src/varde_data/role_inbox.py:232-295 | the exact conditions and order of the errors: no or empty names, an unregistered predecessor, a new name given twice; never when nothing is new |
| RoleInbox.ReadNeverReturns | data/src/varde_data/role_inbox.py:110-306 | what a holder was given or has acked is never unread for it again in any later run, even after removal and a new registration at an earlier position |
| RoleInbox.AdvanceLeavesLater | data/src/varde_data/role_inbox.py:177-195 | an advance leaves exactly the unread messages above the position it names |
| RoleInbox.ExternalHides | data/src/varde_data/role_inbox.py:110-128 | a delivery recorded from outside hides its message from a holder if it reads for the holder or the role, and hides nothing else |
| RoleInbox.AppendsIff | data/src/varde_data/role_inbox.py:96-108 | a message is appended exactly if its id is new and its sequence number positive and above all others, and refused otherwise |
| RoleInbox.ReadingRaisesIff | data/src/varde_data/role_inbox.py:130-215 | a claim, advance or ack raises exactly for an unregistered holder, a position beyond the stream or a message not in it, and with which error |
| RoleInbox.RaisingChangesNothing | data/src/varde_data/role_inbox.py:96-306 | an operation that raises changes nothing |
| RoleInbox.RemovesOne | data/src/varde_data/role_inbox.py:297-306 | removing a holder takes its cursor, tells whether it had one, and touches nothing else |
| RoleInbox.Inbox.AppendMessage | data/src/varde_data/role_inbox.py:96-108 | appends a message whose id is new and whose sequence number is larger than all, and refuses any other |
| RoleInbox.Inbox.RecordReadEvents | data/src/varde_data/role_inbox.py:163-175 | adds the delivered and the acked event of a message unless they are there |
| RoleInbox.Inbox.ClaimUnread | data/src/varde_data/role_inbox.py:130-161 | returns the unread rows, records both events for each, and moves the cursor to the last row if that is ahead, or raises for an unknown holder |
| RoleInbox.Inbox.AdvanceCursor | data/src/varde_data/role_inbox.py:177-195 | moves the cursor forward within the stream head; raises for a position out of range or an unknown holder and then changes nothing |
| RoleInbox.Inbox.AckMessage | data/src/varde_data/role_inbox.py:197-215 | records both events of one message of the stream and moves the cursor to it if that is ahead, or raises and changes nothing |
| RoleInbox.Inbox.AddHolderRows | data/src/varde_data/role_inbox.py:232-295 | registers exactly the names not yet registered at the predecessor's cursor, the head, the lowest cursor or zero, or raises and rolls back |
| RoleInbox.Inbox.InsertRows | data/src/varde_data/role_inbox.py:286-295 | the row inserts collide exactly when a new name is repeated, and otherwise add one row per new name |
| RoleInbox.Inbox.RemoveHolderRow | data/src/varde_data/role_inbox.py:297-306 | deletes one cursor row and reports whether it was there |
| FrictionFold.FoldConverges | data/src/varde_data/friction_events.py:603-717 | logs with the same events under unique ids fold to the same state whatever the order and repetition of their lines |
| FrictionFold.UnionMergeCommutes | data/src/varde_data/friction_events.py:597-717 | a union merge folds to the same state in either merge order |
| FrictionFold.OrderConverges | data/src/varde_data/friction_events.py:603-607 | such logs are put in the same order by time stamp and id |
| FrictionFold.OrderConvergesIff | data/src/varde_data/friction_events.py:603-607 | every order of the lines of a log gives the same ordered log if and only if no two different events in it share an id |
| FrictionFold.FoldConvergesIff | data/src/varde_data/friction_events.py:603-717 | every order of the lines of a log folds to the same state if and only if every choice of one of its events for each id does |
| FrictionFold.ClashDiverges | data/src/varde_data/friction_events.py:603-645 | the two orders of two additions of one item fold to the same state if and only if the items they make agree in every field, whatever else differs |
| FrictionFold.SlugsDistinct | data/src/varde_data/friction_events.py:617-634 | the slugs of a folded log are pairwise distinct, for any log |
| FrictionFold.FindUniqueSlug | data/src/varde_data/friction_events.py:764-770 | ends, and returns the base if it is free and otherwise the base with the least free number from two on |
| FrictionFold.SafeSlugShape | data/src/varde_data/friction_events.py:745-761 | a safe slug is never empty, never all digits, and is dash-separated lower-case alphanumerics up to a `friction-` prefix |
| FrictionFold.ComputeSafeSlug | data/src/varde_data/friction_events.py:745-761 | the character loop with its early stop computes the safe slug |
| FrictionFold.ItemStatus | data/src/varde_data/friction_events.py:672-689 | an item has the status of the last change that names it in log order, and is open if none does |
| FrictionFold.ItemTags | data/src/varde_data/friction_events.py:695-711 | an item's tags are exactly those it was added with and those of every change that names it |
| FrictionFold.EveryEventAccountedFor | data/src/varde_data/friction_events.py:603-717 | distinct ids number items plus occurrences plus status changes plus adoptions plus applied tag changes plus orphans |
| FrictionFold.LaterEventsAppend | data/src/varde_data/friction_events.py:603-607 | events under ids the log does not hold that sort after all of it extend the ordered log at its end, for any log |
| FrictionFold.LaterEventsKeepSlugs | data/src/varde_data/friction_events.py:603-634 | adding events under ids the log does not hold that sort after all of it keeps every earlier item with its slug, in place, for any log |
| FrictionState.LogOrder | data/src/varde_data/friction_events.py:603-607 | the ordered log is sorted by time stamp and then by id |
| FrictionState.LastLineKept | data/src/varde_data/friction_events.py:603-607 | of the lines with one id the ordered log keeps the last one |
| FrictionState.KeptInLogOrder | data/src/varde_data/friction_events.py:671-717 | the state keeps, in log order, exactly the occurrences and status changes whose item it has and the adoptions all of whose items it has |
| FrictionState.KeptIff | data/src/varde_data/friction_events.py:671-717 | an entry is kept if and only if an event of the log has it and every item it names is the event id of an item of the state |
| FrictionState.OrphansAreStrays | data/src/varde_data/friction_events.py:671-717 | the orphans counted are exactly the lines that name an item the state does not have |
| FrictionState.ItemsAreAdditions | data/src/varde_data/friction_events.py:617-634 | the items are the additions of the log in its order, each with the fields of its event and the first free slug of its title |
| FrictionState.TagsKeptOrSorted | data/src/varde_data/friction_events.py:695-711 | tags no change touches are as they were added, and otherwise sorted without repetition |
| FrictionState.SafeSlugIsWords | data/src/varde_data/friction_events.py:745-761 | a safe slug is the lower-case words of the title joined by dashes and cut at eighty characters, `friction` without a word, and marked when it would be a bare number |
| FrictionFold.OrderEvents | data/src/varde_data/friction_events.py:603-607 | the id dictionary and the sort compute the ordered log |
| FrictionFold.Dispatch | data/src/varde_data/friction_events.py:617-669 | the loop over the ordered log yields the new items with their slugs and the pending lines of each other kind |
| FrictionFold.ApplyStatus | data/src/varde_data/friction_events.py:671-689 | overwriting items in place gives each the status its changes end with, keeps the changes that name known items and counts the others |
| FrictionFold.ApplyTags | data/src/varde_data/friction_events.py:695-711 | overwriting items in place gives each the union of its tags and counts the changes that name no item |
| FrictionFold.Attach | data/src/varde_data/friction_events.py:690-717 | keeps exactly the pending lines that name only known items and counts the others |
| FrictionFold.Fold | data/src/varde_data/friction_events.py:603-717 | the whole in-place fold computes the state of the log |
| FrictionLog.AppendThenReplay | data/src/varde_data/friction_events.py:425-530 | on a log with valid complete lines and any torn tail, append then replay gives the old events and the stored batch if and only if every stored event encodes without a line separator and reads back; otherwise replay raises |
| FrictionLog.LineSeparatorBreaksReplay | data/src/varde_data/friction_events.py:432-465 | for any encoding, log and batch, one event encoded with an unescaped line separator makes replay raise from then on, though such an event can be valid |
| FrictionLog.CutPayload | data/src/varde_data/friction_events.py:521-526 | any prefix of the payload is a number of whole lines and a fragment without a newline |
| FrictionLog.CrashLeaves | data/src/varde_data/friction_events.py:507-530 | the complete lines after a crash are the old ones and whole lines of the batch |
| FrictionLog.CrashThenReplay | data/src/varde_data/friction_events.py:432-530 | a crash after any prefix of the payload leaves a log that replays to the old events and a prefix of the batch |
| FrictionLog.AppendAfterCrash | data/src/varde_data/friction_events.py:507-530 | the next append discards only the torn fragment and keeps every complete line |
| FrictionLog.LogFile.AppendMany | data/src/varde_data/friction_events.py:490-530 | validates every event before writing, then cuts the torn tail and writes one line per redacted event |
| FrictionLog.LogFile.ReplayLog | data/src/varde_data/friction_events.py:432-465 | the line loop returns the events of the complete lines and the torn tail, or raises at the first invalid line |
| FrictionLog.ReplayIff | data/src/varde_data/friction_events.py:425-465 | replay raises exactly if a complete line that is not blank does not decode; otherwise it returns those lines with their events in order, and the torn rest |
| AnswerFlow.StepKeepsInv | data/src/varde_data/answer_flow.py:53-210 | every atomic step that respects the exclusion keeps at most one message per entry, what each thread's position promises about its entry, and at most one thread about to send for an entry |
| AnswerFlow.DeliveredAtMostOnce | data/src/varde_data/answer_flow.py:53-210 | in every history in which no retry of a failed entry finds nothing while another thread is about to send for it, the mailbox holds at most one message per entry, and exactly one if the entry is delivered |
| AnswerFlow.ExclusionIsExact | data/src/varde_data/answer_flow.py:145-171 | in every state the invariant allows, a step respects the exclusion if and only if no run that goes on respecting it puts a second message for any entry in the mailbox |
| AnswerFlow.ForbiddenLookup | data/src/varde_data/answer_flow.py:105-171 | a lookup the exclusion forbids, with a claim or a send of another thread under way, has a continuation with two messages, sends that raise after their effect being part of it |
| AnswerFlow.SerialRetriesSuffice | data/src/varde_data/answer_flow.py:145-171 | histories in which no retry of a failed entry starts before the claim of another that read it as failed respect the exclusion throughout |
| AnswerFlow.DeliveredIsTerminal | data/src/varde_data/answer_flow.py:53-210 | in every history, overlapping retries included, a delivered entry stays delivered |
| AnswerFlow.OverlappingRetriesSendTwice | data/src/varde_data/answer_flow.py:145-171 | from the empty store a history with two overlapping retries of one failed entry ends with two messages |
| AnswerFlow.Flow.SubmitAnswer | data/src/varde_data/answer_flow.py:53-72 | stores the answer and delivers it unless it is a permission; the outcome fixes its status and whether the mailbox has its message |
| AnswerFlow.Flow.DeliverInitial | data/src/varde_data/answer_flow.py:83-91 | a failed note write fails the entry without a send; otherwise it is sent |
| AnswerFlow.Flow.DeliverStored | data/src/varde_data/answer_flow.py:93-103 | sends only if the entry still has the status it was read with, and otherwise changes nothing and returns the current status |
| AnswerFlow.Flow.SendEntry | data/src/varde_data/answer_flow.py:105-143 | the message arrives unless the send raises before its effect; the outcome settles an entry still in sending and leaves one another thread has settled, whose status is returned |
| AnswerFlow.Flow.Retry | data/src/varde_data/answer_flow.py:145-171 | leaves settled entries and unreadable mailboxes alone, marks an entry delivered whose message is found, and sends only otherwise |
| AnswerFlow.Flow.LookThenSend | data/src/varde_data/answer_flow.py:151-171 | after the mailbox lookup: nothing if it failed or the entry is no longer as it was read, delivered if the message is there, a send otherwise |
| AnswerFlow.Flow.RecoverSending | data/src/varde_data/answer_flow.py:173-210 | turns exactly the sending entries whose message is in the mailbox into delivered ones |
| AnswerFlow.Flow.ReadForRecovery | data/src/varde_data/answer_flow.py:173-188 | finds exactly the sending entries whose notes path is in the mailbox, or gives up when it cannot be read |
| AnswerFlow.Flow.ReconcileAll | data/src/varde_data/answer_flow.py:185-208 | the loop over the rows delivers each found entry that is still in sending and no other |
| ModeLock.StepKeepsInv | data/src/varde_data/queue_mode_lock.py:165-230 | every step of every thread keeps nesting, current modes, and exclusion between threads |
| ModeLock.EntriesFollowLocks | data/src/varde_data/queue_mode_lock.py:165-230 | a running thread has a depth entry exactly for each file lock it holds, and never one lock in both modes |
| ModeLock.BarrierExcludesOthers | data/src/varde_data/queue_mode_lock.py:208-230 | over every interleaving, while a thread holds a barrier no other thread is inside an operation or a barrier on that path |
| ModeLock.YieldedModeStaysCurrent | data/src/varde_data/queue_mode_lock.py:165-193 | over every interleaving, the mode an operation outside a barrier yielded equals the stored mode until it exits |
| ModeLock.HeldExactlyInside | data/src/varde_data/queue_mode_lock.py:165-230 | after any run a thread holds a path's file lock exactly while it is inside some block on that path |
| ModeLock.EveryPathCanBeFlipped | data/src/varde_data/queue_mode_lock.py:165-230 | from every reachable state some run gets every thread out of all its blocks with the modes unchanged, and then any thread can bar any path and set its mode |
| ModeLock.FlipIsSeen | data/src/varde_data/queue_mode_lock.py:165-230 | whatever runs before and after a flip, until the next flip of the path every operation outside a barrier on any thread has the mode that was set |
| ModeLock.FlipDisturbsNobody | data/src/varde_data/queue_mode_lock.py:208-230 | changing the stored mode inside a barrier changes no mode another operation yielded |
| ModeLock.EntryYieldsStored | data/src/varde_data/queue_mode_lock.py:166-194 | over every interleaving, an operation that reaches its yield, outermost, reentrant or inside an owned barrier, yields the mode stored for its path at that moment |
| ModeLock.EntriesCountBlocks | data/src/varde_data/queue_mode_lock.py:166-230 | over every interleaving a thread's depth entries are the number of its operation and barrier blocks on the path |
| ModeLock.NothingEnteredInCallbacks | data/src/varde_data/queue_mode_lock.py:56-230 | over every interleaving nothing but further callbacks is entered inside a callback |
| ModeLock.ThreadLocals.EnterOperationBlock | data/src/varde_data/queue_mode_lock.py:165-193 | enters reentrantly, inside an owned barrier, or with the shared lock, and refuses callbacks; the depth map follows the stack |
| ModeLock.ThreadLocals.RegisterMode | data/src/varde_data/queue_mode_lock.py:187-189 | records the mode read under the lock at depth one |
| ModeLock.ThreadLocals.EnterBarrierBlock | data/src/varde_data/queue_mode_lock.py:208-226 | enters reentrantly or with the exclusive lock, and refuses callbacks and operations on the path |
| ModeLock.ThreadLocals.RegisterBarrier | data/src/varde_data/queue_mode_lock.py:225-226 | marks the barrier at depth one |
| ModeLock.ThreadLocals.EnterCallbackScope | data/src/varde_data/queue_mode_lock.py:56-63 | counts one more callback |
| ModeLock.ThreadLocals.LeaveBlock | data/src/varde_data/queue_mode_lock.py:191-230 | leaving restores the depth entry the block found, outermost blocks first their entry and then their lock |
| ModeLock.ThreadLocals.EntriesExactlyInside | data/src/varde_data/queue_mode_lock.py:165-230 | a running thread has a depth entry for a path exactly while it is inside some block on it, so none when it has left them all |
| LearnStore.RoundTrip | data/src/varde_data/learn_store_mode.py:42-109 | a record parses back to itself if and only if its modes are known and its generation is within 2^63-1, and is refused otherwise |
| LearnStore.FlipReadsBack | data/src/varde_data/learn_store_mode.py:172-195 | what a flip writes reads back as the next generation with one domain changed and the others as they were |
| LearnStore.ParseIff | data/src/varde_data/learn_store_mode.py:84-109 | a marker is readable exactly if its version equals one, its generation is an integer in range and every domain has a known mode, and is read as what it says |
| LearnStore.FlipsIff | data/src/varde_data/learn_store_mode.py:172-195 | a flip goes through exactly for a known mode and domain, a readable marker and a generation that can grow |
| LearnStore.AdmittedIff | data/src/varde_data/learn_store_mode.py:118-156 | a waiting writer is let in exactly if its domain is known, its held generation is current, and a files writer finds its domain on files |
| LearnStore.BeforeAnyFlip | data/src/varde_data/learn_store_mode.py:73-156 | before any flip every admitted writer, in every run, writes to files at generation zero |
| LearnStore.MarkerFile.FlipDomainLocked | data/src/varde_data/learn_store_mode.py:172-195 | writes the flipped record, or raises and leaves the marker file as it was |
| LearnStore.StepKeepsInv | data/src/varde_data/learn_store_mode.py:118-195 | every step keeps the fencing invariant, and a changed mode map means a larger generation |
| LearnStore.GenerationDeterminesModes | data/src/varde_data/learn_store_mode.py:84-195 | over every interleaving of writers and flips the generation only grows, and an equal generation means an equal mode map |
| LearnStore.HeldWriterKeepsBackend | data/src/varde_data/learn_store_mode.py:118-139 | an admitted write with a held generation goes to the backend its domain had when that generation was read |
| LearnStore.FilesWritersOnlyOnFiles | data/src/varde_data/learn_store_mode.py:142-156 | no body of a files writer runs while its domain is on sqlite |
| QueueLine.ParseLineQueue | data/src/varde_data/queue_line.py:35-74 | the line loop with its row flag computes the parsed queue of any text |
| QueueLine.ReadFields | data/src/varde_data/queue_line.py:53-67 | the field loop stops at the first field without a colon or with free text after two blanks |
| QueueLine.RenderLineQueue | data/src/varde_data/queue_line.py:77-95 | the layout loop writes raw lines as they are and other rows in canonical form |
| QueueLine.RenderParse | data/src/varde_data/queue_line.py:35-95 | rendering what was parsed gives back any text, character for character |
| QueueLine.ValidateLineQueue | data/src/varde_data/queue_line.py:98-110 | reports the first malformed line or repeated task with its line number |
| QueueLine.ValidateIff | data/src/varde_data/queue_line.py:98-110 | a text passes if and only if every item line is well formed and no two name the same task |
| QueueLine.DuplicatesRaise | data/src/varde_data/queue_line.py:50-110 | a text in which the parser reads one task twice never passes the validation, although the two read tasks differently |
| QueueLineFields.CanonicalReadsBack | data/src/varde_data/queue_line.py:53-95 | a row printed in canonical form and parsed again gives back its task, its values and its free text if and only if its parts are trimmed, keys have no colon, nothing holds a field separator or a line break, and no value holds two blanks before text |
| QueueLineFields.FieldsReadIff | data/src/varde_data/queue_line.py:53-74 | the same for the list of fields and the free text alone |
| QueueLineFields.FindTailCuts | data/src/varde_data/queue_line.py:64-72 | a value is cut into value and free text exactly if two or more blanks stand before more text in it, and then at the first such place |
| QueueLineFields.StrictIff | data/src/varde_data/queue_line.py:8-12 | a line has the production format if and only if it is four parts of the given forms between three bars, and its task is the first part trimmed |
| QueueLineFields.LinesAccountedFor | data/src/varde_data/queue_line.py:35-74 | the rows are the item lines in order, and every other line is kept in the header or with its place among the rows |
| QueueLineSync.LineStore.Enqueue | data/src/varde_data/backends/sqlite/queue.py:121-161 | inserts an item under a new id, keeps the item an id already has, and does not find an item whose id another queue has |
| QueueLineSync.LineStore.ImportText | data/src/varde_data/queue_line_sync.py:81-147 | skips a text with the recorded hash, reports repeated tasks without a change, raises at an id of another queue with the rows before it stored and the record unchanged, and otherwise stores rows, layout and counts |
| QueueLineSync.LineStore.StoreRows | data/src/varde_data/queue_line_sync.py:101-139 | the upsert loop adds, updates or leaves each row and counts which, up to the first row whose id another queue has |
| QueueLineSync.LineStore.RenderStore | data/src/varde_data/queue_line_sync.py:161-196 | the layout loop joins kept lines and stored rows, skipping tasks that are not stored |
| QueueLineSync.LineStore.ExportLineQueue | data/src/varde_data/queue_line_sync.py:199-242 | imports drift, raises on conflicts, on a taken id with the rows before it stored, or without a layout, and otherwise renders and records the hash |
| QueueLineSync.PutRowsRefused | data/src/varde_data/queue_line_sync.py:101-117 | the loop raises exactly when the task of some row makes an id that another queue had before the import, and names the first such id |
| QueueLineSync.PutRowsStores | data/src/varde_data/queue_line_sync.py:101-139 | of rows with different tasks, each one before the first refused is stored with its line, fields and position |
| QueueLineImport.RowStored | data/src/varde_data/queue_line_sync.py:101-117 | each written row of different tasks is stored under its id with its task, position, values, free text and raw line |
| QueueLineImport.ReportCounts | data/src/varde_data/queue_line_sync.py:101-139 | an import counts as added the rows whose task was new, as unchanged those whose item already was as imported, and as updated the others |
| QueueLineRuns.ImportCases | data/src/varde_data/queue_line_sync.py:81-147 | from any store, an import either changes nothing for the recorded text, reports repeated tasks and changes nothing, raises with the rows before the taken id stored, or stores all rows and the layout |
| QueueLineRuns.ImportedShows | data/src/varde_data/queue_line_sync.py:81-196 | after an import without repeated tasks or taken ids the store shows exactly that text, stale items or not |
| QueueLineRuns.StepKeepsOthers | data/src/varde_data/queue_line_sync.py:81-242 | no import or export of one queue, finished or cut short, changes the items, the record or the text of another |
| QueueLineRuns.ImportTwice | data/src/varde_data/queue_line_sync.py:81-147 | importing a stored text again changes nothing and counts every row as unchanged |
| QueueLineRuns.ExportAnyStore | data/src/varde_data/queue_line_sync.py:199-242 | from any store whatever: a matching hash returns what is shown; otherwise the export returns exactly the text if and only if no task is repeated and no id taken, and what each error leaves behind |
| QueueLineRuns.SettledInv | data/src/varde_data/queue_line_sync.py:81-242 | over every run, a queue whose last import or export with rows to store was finished has a record whose hash is that of the text it shows |
| QueueLineRuns.ExportAfterAnyRun | data/src/varde_data/queue_line_sync.py:81-242 | after any run of imports and exports, cut short and raising ones included, an export of such a queue, or of a text whose hash is not recorded, is exact unless a task is repeated or an id is taken |
| QueueLineRuns.NoClashWithoutSign | data/src/varde_data/queue_line_sync.py:101-117 | among queues without a number sign in their names no task makes an id of another queue |
| QueueLineRuns.ExportWithoutSign | data/src/varde_data/queue_line_sync.py:81-242 | without a number sign in a queue's name and without interruptions, an export after any run returns the text and raises exactly when a task is repeated |
| QueueLineRuns.CutShortExact | data/src/varde_data/queue_line_sync.py:103-242 | after an import of any text stops at any row, the next export of any text is exact if and only if the rows left behind agree with it line by line where the hash matches, and otherwise it repeats no task and takes no id |
| QueueLineRuns.RaisingIsCut | data/src/varde_data/queue_line_sync.py:101-117 | an import that raises leaves what one cut short at that row does |
| QueueLineRuns.CutShortBreaksExport | data/src/varde_data/queue_line_sync.py:103-147 | for any two lines of one task: an export of the first, an import of the second that stops before its layout, and the first put back make the next export return other text |
| QueueLineRuns.ClashBreaksExport | data/src/varde_data/queue_line_sync.py:101-147 | the same without a crash, for any two queues that make one id: the import raises there and the next export of the old text returns another |
| QueueMd.SplitTableRow | data/src/varde_data/queue_md.py:45-62 | the character loop splits a row at the pipes outside backtick spans |
| QueueMd.SplitWellFormed | data/src/varde_data/queue_md.py:45-62 | the cells of any line are trimmed, have pipes only inside backtick spans, and all but the last close their spans |
| QueueMd.SplitRendered | data/src/varde_data/queue_md.py:45-130 | splitting a rendered row gives back its cells if and only if they have that form |
| QueueMd.SplitStable | data/src/varde_data/queue_md.py:45-130 | the cells of any line, rendered, split into themselves |
| QueueMd.PipesConserved | data/src/varde_data/queue_md.py:45-130 | whatever a rendered row splits into, cells and pipes inside cells together number the same |
| QueueMd.ParseQueueMd | data/src/varde_data/queue_md.py:65-110 | finds the first table, refuses repeated columns and non-blank text without a table, and keeps everything around the rows |
| QueueMd.FindHeaderLine | data/src/varde_data/queue_md.py:70-78 | finds the first line that starts a table and is followed by a rule |
| QueueMd.ReadRows | data/src/varde_data/queue_md.py:88-100 | reads the rows up to the first line that is not one |
| QueueMdTable.ParsesFirstTable | data/src/varde_data/queue_md.py:65-110 | the first table head of any text decides: the document has its columns, the rows below it with their cells and surplus, and the text around them; repeated columns raise |
| QueueMdTable.ParsesNoTable | data/src/varde_data/queue_md.py:65-83 | without a table head blank text is a document without a table and any other text raises |
| QueueMdTable.RuleIff | data/src/varde_data/queue_md.py:70-78 | a line is a rule if and only if it matches the pattern of the source, part by part |
| QueueMd.RenderParse | data/src/varde_data/queue_md.py:65-130 | rendering a parsed text gives it back if and only if every row has a cell for every column |
| QueueMd.EditIsLocal | data/src/varde_data/queue_md.py:113-130 | editing one row changes the line of that row and nothing else, and the new line splits into the edited cells if and only if they are well formed |
| ReverseClosure.ReverseClosureSizes | code/scripts/quality-pass/measure_quality.py:338-354 | the sweep limited to as many rounds as files counts for each file exactly the files with a non-empty reference chain to it |
| ReverseClosure.Sweep | code/scripts/quality-pass/measure_quality.py:344-353 | one round stays sound, looks one step further for every file, and reports no change only at the fixpoint |
| ReverseClosure.MergeReferrers | code/scripts/quality-pass/measure_quality.py:346-348 | the bits of a file gain exactly its referrers' positions and bits |
| ReverseClosure.ShortChain | code/scripts/quality-pass/measure_quality.py:342-353 | any reference chain, cycles included, can be cut to at most as many steps as there are files |
| ReverseClosure.FixpointIsComplete | code/scripts/quality-pass/measure_quality.py:350-353 | a round without change has found chains of every length |
| FairQuotas.ComputeFairQuotas | design/corpus/calibrate.py:105-116 | ends with quotas within the sizes that sum to the smaller of the cap and the total, are max-min fair and give what is over to the earlier names, a negative cap counting as zero |
| FairQuotas.QuotasDetermined | design/corpus/calibrate.py:105-116 | what the method promises leaves no choice: quotas of one sum that are fair and give what is over to the earlier names are equal |
| FairQuotas.Pass | design/corpus/calibrate.py:109-115 | one pass conserves quotas plus budget, spends something, leaves all open rules level or the budget empty, and serves the earlier names first |
| FairQuotas.TakeTurns | design/corpus/calibrate.py:111-114 | the turns of the open rules, in order, each taking its share, its room or what is left |
| FairQuotas.PassIsFair | design/corpus/calibrate.py:110-114 | a pass that serves everyone in full, or hands out single rows, leaves nobody more than one ahead of an open rule |
| Sampling.SampleRule | design/corpus/calibrate.py:119-130 | given a quota within the rows, ends with exactly the quota picked, no row used twice, parts balanced within one unless exhausted with what is over given to the earlier names, and of every part the last rows as it was shuffled |
| Sampling.ChooseRows | design/corpus/calibrate.py:141-147 | the label sheet picks exactly the smaller of the cap and the rows, fairly over rules with what is over given to the earlier names, by samples that end because of the quotas |
| Sampling.RuleSizes | design/corpus/calibrate.py:143-146 | the sizes given to the quotas are the rows of each rule, and add up to all rows |
| Sampling.SampleAll | design/corpus/calibrate.py:147 | the samples of all rules together hold each rule's quota of its own rows, none twice |
| Sampling.GroupRows | design/corpus/calibrate.py:120-122 | grouping by a key loses and mixes nothing |
| Sampling.RoseIsBalanced | design/corpus/calibrate.py:126-129 | rounds over the parts keep any two parts within one unless the smaller is used up |
| Sampling.NothingLeft | design/corpus/calibrate.py:126-129 | when no part has rows left all rows are picked, so a larger quota would never be reached |
| Dependencies.Closure | core/src/varde_core/skill_relations.py:64-87 | ends, and returns the sorted reachable set if and only if every reachable name is known and no cycle is reachable; otherwise an unknown reachable name or a real closed walk |
| Dependencies.InstallClosure | app/src/varde/manifest.py:31-54 | the same for modules, with the requiring module of an unknown one; a reported chain is a walk from the root without repetition up to its last name, and a cycle from that name's first visit on |
| Dependencies.InstallChainsClose | app/src/varde/manifest.py:31-54 | every chain that can be reported is a cycle if and only if every cycle within the module's reach passes through the module |
| Dependencies.InstallChainNeedNotClose | app/src/varde/manifest.py:37-40 | a graph in which that fails: the search must fail and no chain it can report is a cycle |
| Dependencies.Search.Visit | core/src/varde_core/skill_relations.py:70-83 | a visit ends with the name and only names it reaches added to the finished ones and the path restored, or with a real fault |
| Dependencies.Search.VisitNew | core/src/varde_core/skill_relations.py:75-83 | a name that is new to the search is put on the path, its requirements visited, and then finished |
| Dependencies.Search.VisitRequired | core/src/varde_core/skill_relations.py:79-81 | the loop over what a name requires finishes all of it |
| Dependencies.LoopIsCycle | core/src/varde_core/skill_relations.py:71-73 | the path from the first occurrence of a repeated name is a closed walk of the graph |
| Complexity.FunctionComplexities | code/src/varde_code/complexity.py:227-265 | the grouping and the loop over callables compute the metrics of every callable |
| Complexity.GroupFlows | code/src/varde_code/complexity.py:247-253 | every file has exactly its non-test flows with a role, in order |
| Complexity.CognitiveComplexity | code/src/varde_code/complexity.py:386-416 | the event loop computes the score by roles, depths and logical sequences |
| Complexity.ReadMetrics | code/src/varde_code/complexity.py:268-293 | the metrics of one callable come from the flows attributed to it and the events around it |
| Complexity.AttributedIff | code/src/varde_code/complexity.py:302-315 | a flow is charged to a callable if and only if the callable contains it and has the span of the first of the smallest callables that contain it |
| Complexity.ChargedToSmallest | code/src/varde_code/complexity.py:302-315 | no callable of the flow's file that contains the flow is smaller than the one it is charged to |
| Complexity.CallablesAre | code/src/varde_code/complexity.py:229-245 | the callables are the functions that are no tests, and the boundaries that are none and share no span with such a function |
| Complexity.FlowsAre | code/src/varde_code/complexity.py:247-253 | the flows are the control flow and the catches that are no tests, each with its role |
| Complexity.RolesCounted | code/src/varde_code/complexity.py:318-465 | which roles are events, which count for cyclomatic complexity, which nest and which deepen what they contain |
| Complexity.SizesOf | code/src/varde_code/complexity.py:289-290 | sizes are the bytes and lines of the span, cut off at 32 bits |
| Complexity.ChargesAddUp | code/src/varde_code/complexity.py:302-315 | for any entities, what the cyclomatic counts hold beyond one adds up to the number of callables that share the smallest span around each flow |
| Complexity.OneOwner | code/src/varde_code/complexity.py:302-315 | among callables of different spans a flow is charged to exactly one if any contains it |
| Complexity.CyclomaticConserved | code/src/varde_code/complexity.py:227-428 | with callables of different spans in every file, the sum of cyclomatic minus one is the number of counted non-test flows inside callables |
| Complexity.CognitiveBound | code/src/varde_code/complexity.py:386-485 | with n events and k nested callables and spans determined by their bytes, as spans of one source text are, the cognitive score is at most n(n+1)/2 + n*k |
| CognitiveScore.ScoreByParents | code/src/varde_code/complexity.py:386-485 | the cognitive score counted the other way round: what every event scores at depth zero, plus per structural event the events it deepens, plus per nested callable the events it wraps |
| CognitiveScore.SequencePointIff | code/src/varde_code/complexity.py:488-515 | a logical sequence scores nothing exactly when the first of the smallest sequences around it in the same innermost callable has the same operator |
| CognitiveScore.InnermostIs | code/src/varde_code/complexity.py:518-527 | the innermost callable of a flow is the first of the smallest between it and the callable scored, and otherwise the latter |
| CognitiveScore.DeepestNesting | code/src/varde_code/complexity.py:368-383 | the nesting is the depth of the deepest nesting flow, and zero without one |
| Complexity.SameBytesExceedBound | code/src/varde_code/complexity.py:431-465 | that hypothesis is needed: two spans with the same bytes and different lines, which no one source text has, would exceed the bound |
| CachedData.CachedReader.Read | data/src/varde_data/cache.py:36-66 | returns the cached value on a hit, and otherwise the first of three loads bracketed by equal versions, the old value, or an error |
| CachedData.ReturnsCached | data/src/varde_data/cache.py:36-66 | after a call that leaves a value cached the result is that value; otherwise nothing changed and the error is that of a failed load if one failed, and instability if none did |
| CachedData.FirstSettledDecides | data/src/varde_data/cache.py:47-66 | the first attempt that loads between equal versions is cached and returned whatever was cached before; without one the cache stays as it was |
| CachedData.UnchangedIsHit | data/src/varde_data/cache.py:36-46 | while the version is the cached one and no file was modified within two seconds of the load, the cached value is returned and nothing loaded |
| CachedData.LoadReturnsSource | data/src/varde_data/cache.py:47-66 | against any history of writes, a reload returns the value of the contents its source attempt read, and without one the old value |
| CachedData.LoadKeepsSource | data/src/varde_data/cache.py:47-66 | a newly cached value is that of the first attempt with equal version reads before and after it, whatever the discarded attempts saw |
| CachedData.HitIsFresh | data/src/varde_data/cache.py:36-46 | when granularity plus load duration is at most two seconds and the clock is monotone, the content a hit returns is what a fresh load would return if and only if every path absent at its stat was absent when read |
| CachedData.EveryHitExact | data/src/varde_data/cache.py:36-66 | over every run of calls against any history of writes, a hit is fresh if and only if no path was absent at both version reads of the attempt it came from and present at its read |
| CachedData.StatUnchangedMeansUntouched | data/src/varde_data/version.py:20-25 | a file whose stat is unchanged and outside the two-second window has not been written since before it was read |
| CachedData.AbsentFileGoesStale | data/src/varde_data/cache.py:36-46 | a file created after its stat and removed after its read makes a later hit stale |

## Left out

- SQLite, file locks, fsync, JSON, YAML and hashing: transactions are atomic steps, locks are free or taken, encoders and the hash are parameters assumed injective.
- The message, queue, slot and decision backends: only increasing sequence numbers, unique ids, compare-and-set transitions and never-deleted deliveries are used.
- Inbox message columns other than id, sequence number, recipient and text, and the checks of role addresses: they decide nothing in the modelled operations.
- Delivery event columns other than message, reader and kind: the unread query reads no others.
- Friction event validation, provenance, redaction rules, and the evidence, cost and commit fields: validity and redaction are parameters of append, and fold only copies the fields.
- A tag change with a null tag list, and a crash that cuts a multi-byte character: `read_text` raises on the latter.
- The line number in a replay error, and the checked variants of append, which share its file handling.
- Answer permissions beyond "stored and not sent", decision records, message summaries and plan write-back.
- AnswerFlow.DeliveredAtMostOnce: assumes the exclusion on lookups; without it the claim is false, and the exclusion is exact.
- AnswerFlow.Flow.SubmitAnswer: begins with an answer the repository has accepted; replayed keys, conflicting keys, settled decisions and overlong bodies change nothing.
- AnswerFlow.Flow.Retry: describes a call no other thread interrupts; interruptions are covered by the step theorems.
- AnswerFlow.Flow.SendEntry: other threads act before it, not between its send and its compare-and-set, where the step theorems let them.
- AnswerFlow.Flow.LookThenSend: likewise uninterrupted after the lookup.
- AnswerFlow.Flow.RecoverSending: likewise uninterrupted between listing the rows and settling them; `ReconcileAll` takes rows settled meanwhile.
- ModeLock: lock timeouts, and `_read_mode`'s checks of the store, which become the stored mode or an error on entry.
- LearnStore: the fallible directory sync and ignore file after a flip.
- QueueLine: the digits the pattern's `\d` takes are those of Unicode 16.0.
- QueueLineSync: items of a line queue written by other code, rows without a stored line, undecodable layouts, item state and priority, and reading the file, whose failure comes before any change.
- QueueLineRuns.ExportWithoutSign: assumes no interruption; `CutShortExact` says what one does.
- QueueMd: `parse_depends_cell`, whose phrase patterns have no inverse to prove against.
- Queue sync's cell merge, slot and order models, relays, transfers and pruning: separate components.
- Sampling.SampleRule: requires a quota within the rows, which its only caller guarantees; with a larger one the source's loop never ends.
- Sampling: the final shuffle, the sheet's columns and the random generator, which is an arbitrary permutation.
- Complexity.SameBytesExceedBound: about tables of spans, not parsed texts; it only shows that the bound's hypothesis matters.
- Complexity: the tables of control-flow names, name folding, confidence reasons, and names and owners copied into the result.
- CachedData: the names below a tracked directory in a version; tracked paths are files.
