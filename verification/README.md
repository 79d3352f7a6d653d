# OpsPilot core, modelled and proved in Dafny

OpsPilot is a read-only operations agent. Around its SQL and HTTP plumbing sit a few protocols,
scanners and graph or merge algorithms that make promises over every interleaving, every run or
every input. This project models those and proves the promises. `dafny verify dfyconfig.toml`
checks everything.

| files | subject |
|---|---|
| `SlotTable`, `SlotProtocol`, `SlotInvariant`, `SlotTheorems`, `SlotSections` | the worker loop: a polling thread, slot threads and a stop request, as a step system over atomic sections |
| `PostmortemStore`, `PostmortemReader` | the double-collect read of postmortem records, over a store others write between any two reads |
| `LeaseStore`, `FencedStore`, `RecoverySession` | lease-fenced recovery: claim, replay, commit and abandon, while humans and other workers move the rows and any call may fail |
| `Connectivity`, `UnionFind`, `MergeGraph`, `CleanupUnits`, `Retention` | retention cleanup: union-find, merge groups, cleanup units, the recheck under locks, the accounting |
| `ValueScanner`, `ValueGrammar`, `RedactionRules`, `Splicing`, `ProseRedaction`, `RedactionCoverage`, `RedactionSecrecy` | credential redaction of prose: bracket, quote and escape automata, the three rewriting passes, what they examine, and what their output may depend on |
| `PayloadTree`, `PayloadRedaction` | redaction of JSON payloads with an explicit stack and mutable destinations |
| `ClockMerge` | recovery actions of two clocks merged into one order |
| `RoundExit` | the exit code of a live evaluation round |
| `OutboxDelivery` | trace delivery: claims, attempts, backoff, settlement |
| `AlertContext` | the alert context that fits a character budget |
| `Outcomes` | optional values and results |

Where the source changes fields in place the model is a class or a method with loops
(`WorkerLoop`, `Sets`, `Database`, `Reader`, `Store`, `Session`, `Worker`, `Round`, the scanners,
the rewriting passes, the payload walk); concurrent threads and other writers are steps of a state
machine, or a call that replaces the shared state by the outcome of arbitrary operations.

What the proofs rest on, besides the code:

- The claim listing names each incident at most once (one row per incident and its current Run,
  `opspilot/persistence/incidents.py:187-220`).
- Every write to a postmortem or a knowledge entry raises that object's generation: drafts, review
  transitions, approvals of this postmortem and of others, and revocations are modelled and shown to
  do so.
- A Run's versions and a committed step's plan never change; only `commit_tool` adds a result.
- Incident ids are compared as strings by the source and as naturals here; only the total order matters.
- A finder of assignments returns matches at or after the position asked for, with a name and a
  separator before the value; the coverage results also take it to return the leftmost match, and no
  match to begin inside another's name or separator. The name test itself is a parameter.
- Event times are in microseconds, retention times in days, delivery times in seconds.

Three results go against what the code or its comments suggest:

- **The double collect is not atomic as it stands.** A published row carries the standing its
  revision had when the rows were listed. A revocation between that read and the reading of the
  entry's history raises only the entry's generation, which is read later, so both looks agree and a
  mixed record is accepted (`TornReadAccepted`). The generation-guarded parts of the records are of
  one instant always, published standings aside (`StableIsInstant`); with them, if and only if no
  write changed a published revision's standing between the listing and the reading of its entry's
  history (`AtomicIffUnmoved`), for which it is enough that no published entry was written in that
  stretch (`QuietIsAtomic`). On the records themselves the same shows as published standings that
  agree with the histories (`AtomicIffAgreeing`).
- **A payload may be reported as changed although it is not** (`ReportedWithoutChange`): a key that
  redacts to a taken name can be given back its own spelling by the suffix search, as with the keys
  `password="[REDACTED_CREDENTIAL]"` and the same followed by `#2`, which the value rule redacts to
  the first (`BothRedactToPlain`), both holding null. A change is
  reported exactly when the rewrite differs or, in some walked object, a key redacts to a name
  already taken (`ReportedChange`).
- **An assignment inside a bare scalar behind an ordinary quoted name is passed over**
  (`NestedIsPassedOver`): the comment at `opspilot/redaction.py:164-166` has such a name consume nothing
  past its separator, the code goes on behind the scalar. A match of the quoted pass is examined
  exactly when it begins neither in a replaced value nor in such a scalar (`QuotedCovered`).

## Model

| member | source | states |
|---|---|---|
| SlotTable.WorkerLoop.constructor | opspilot/worker_main.py:191-205 | all slots idle, slot 0 on top, nothing in flight or recent |
| SlotTable.WorkerLoop.CheckoutNow | opspilot/worker_main.py:258-265 | takes the most recently freed slot, or fails exactly when none is idle |
| SlotTable.WorkerLoop.Launch | opspilot/worker_main.py:283-290 | registers the attempt, or after a stop returns the slot and starts nothing |
| SlotTable.WorkerLoop.FinishSlot | opspilot/worker_main.py:306-314 | leaves flight, becomes recent and frees the slot in one section |
| SlotTheorems.ReadingTellsAll | opspilot/worker_main.py:373-375 | what is read before a refill: the free slots are exactly those no attempt occupies, and everything in flight or launched since the last timed poll is excluded |
| SlotTheorems.OnlyRecentExcluded | opspilot/worker_main.py:401-412 | over every run, what is excluded is exactly what was in flight when a timed poll last forgot the recent attempts, and what was launched since |
| SlotTheorems.TimedPollWalks | opspilot/worker_main.py:365-418 | a timed poll with a free slot and a served listing excludes only what is in flight and walks the listing from its first entry |
| SlotTheorems.WakeWalks | opspilot/worker_main.py:397-418 | a wake between timed polls leads to a walk just so, with recent attempts excluded too |
| SlotTheorems.ServedListingIsWalked | opspilot/worker_main.py:365-384 | whatever the slot threads do meanwhile, a listing served without a stop is walked |
| SlotSections.SlotMove | opspilot/worker_main.py:292-314 | a slot thread's section leaves the fields of its protocol step and goes on as the object says |
| SlotSections.PollMove | opspilot/worker_main.py:365-420 | the polling thread's section leaves the fields of its protocol step, and its next action follows from what the object answered |
| SlotSections.Move | opspilot/worker_main.py:258-420 | each critical section and event operation of the shared object does exactly its step of the protocol |
| SlotSections.Drive | opspilot/worker_main.py:191-420 | the object, driven from its constructor by any moves, holds a reachable state, its slots making up the capacity |
| SlotTable.WorkerLoop.ClearRecent | opspilot/worker_main.py:406-407 | forgets every recent attempt, so that only what is in flight stays excluded, and changes nothing else |
| SlotInvariant.InvInitial | opspilot/worker_main.py:191-205 | the protocol invariant holds at the start |
| SlotInvariant.InvStep | opspilot/worker_main.py:258-420 | every step of every thread keeps the invariant |
| SlotTheorems.SlotsConserved | opspilot/worker_main.py:258-314 | in every interleaving idle, held and in-flight slots make up the capacity, no slot is shared, no incident is in flight twice |
| SlotTheorems.LaunchedOncePerPoll | opspilot/worker_main.py:365-412 | each incident is launched at most once between two timed polls |
| SlotTheorems.LimitSuffices | opspilot/worker_main.py:376-380 | the listing limit never hides an incident a refill could launch |
| SlotTheorems.RefillLaunchesBest | opspilot/worker_main.py:365-395 | a refill of several slots launches exactly the first free many of the claim order that are neither in flight nor recent |
| SlotTheorems.CheckoutSucceeds | opspilot/worker_main.py:389-392 | with several slots a checkout never fails while budget remains |
| SlotTheorems.FirstCheckoutSucceeds | opspilot/worker_main.py:384-392 | for any capacity, until its first launch a walk always has a slot to take |
| SlotTheorems.WalkLaunches | opspilot/worker_main.py:376-395 | for any capacity, a walk over a listing with anything eligible has launched when it ends without a stop |
| SlotTheorems.LaunchedInOrder | opspilot/worker_main.py:384-395 | for any capacity, what a walk launches is a prefix of the eligible claim order |
| SlotTheorems.NoWakeLost | opspilot/worker_main.py:410-418 | a waiting poller with a slot released since the clear can go on, or a thread is about to set the event |
| SlotTheorems.NothingAfterStop | opspilot/worker_main.py:283-303 | after a stop nothing is launched and no attempt passes its own check |
| SlotTheorems.ReturnsIdle | opspilot/worker_main.py:320-327 | `run` returns only after a stop, nothing in flight, every slot idle |
| SlotTheorems.RankDrops | opspilot/worker_main.py:397-420 | after a stop every step uses up one unit of a rank |
| SlotTheorems.ShutdownIsBounded | opspilot/worker_main.py:397-420 | after a stop no run is longer than the rank |
| SlotTheorems.ShutdownNeverStuck | opspilot/worker_main.py:397-420 | after a stop some step is enabled until `run` has returned and every thread is gone |
| PostmortemStore.EntryHeld | opspilot/acceptance_postmortem.py:262-278 | an entry of equal generation at both ends of a stretch never changed inside it |
| PostmortemStore.PostmortemHeld | opspilot/acceptance_postmortem.py:262-278 | the same for the postmortem |
| PostmortemStore.ActionsEvolve | opspilot/knowledge/store.py:796-956 | drafts, approvals of any number of proposals, review transitions, revocations and approvals of other postmortems raise the generation of what they change, drop nothing and keep every published link on a stored revision |
| PostmortemStore.PublishAllKeeps | opspilot/knowledge/store.py:1339-1437 | publishing the proposals of a version in turn keeps links and moves every touched entry on |
| PostmortemStore.WritersMakeHistories | opspilot/knowledge/store.py:796-956 | whatever the writers do, in whatever order, the store goes through a history the double collect is proved for |
| PostmortemStore.PublishedInForce | opspilot/knowledge/store.py:1375-1430 | a publication is in force, it alone of its entry, under the next number, and touches no other entry |
| PostmortemStore.PredecessorSuperseded | opspilot/knowledge/store.py:1381-1390 | the revision that was in force steps behind it; one revoked stays revoked |
| PostmortemStore.WithdrawnOutOfForce | opspilot/knowledge/store.py:899-940 | only what is in force can be withdrawn; then nothing of its entry is in force |
| PostmortemStore.ActionsNumber | opspilot/knowledge/store.py:796-956 | every writer keeps revisions numbered from one and at most the last in force |
| PostmortemStore.OutOfForceForGood | opspilot/knowledge/store.py:796-956 | over any sequence of writers at most the last revision is in force, and one superseded or revoked is so for good |
| PostmortemReader.ActiveIsLast | opspilot/knowledge/store.py:1041-1063 | the read of the revision in force answers the last revision or nothing |
| PostmortemReader.StableIsInstant | opspilot/acceptance_postmortem.py:262-278 | whatever was written between the reads, the generation-guarded parts of accepted records are, published standings aside, the store at one instant inside the call |
| PostmortemReader.SnapshotAgrees | opspilot/knowledge/store.py:1188-1203 | in a true snapshot the published standings are those of the histories |
| PostmortemReader.AgreementDecides | opspilot/knowledge/store.py:1188-1203 | records of an instant are its snapshot exactly when the standings agree |
| PostmortemReader.AtomicIffAgreeing | opspilot/acceptance_postmortem.py:262-278 | accepted records are one instant's snapshot if and only if published standings and histories agree |
| PostmortemReader.AtomicIffUnmoved | opspilot/acceptance_postmortem.py:241-278 | accepted records are one instant's snapshot if and only if no write changed a published revision's standing between the listing and the reading of its entry's history |
| PostmortemReader.QuietIsAtomic | opspilot/acceptance_postmortem.py:241-278 | no write to a published entry in that stretch is enough |
| PostmortemReader.TornReadAccepted | opspilot/acceptance_postmortem.py:241-278 | a concrete revocation between two reads is accepted and matches no instant |
| PostmortemReader.Reader.ReadOnce | opspilot/acceptance_postmortem.py:241-259 | every part is what the store held at a recorded moment, in read order |
| PostmortemReader.Reader.Recheck | opspilot/acceptance_postmortem.py:227-238 | the second look succeeds exactly when the generations are those of the records |
| PostmortemReader.Reader.PostmortemRecords | opspilot/acceptance_postmortem.py:262-278 | an accepted result is of one instant inside the call, atomic if and only if standings agree; otherwise refused after exactly `attempts` tries |
| PostmortemReader.RefusedMoved | opspilot/acceptance_postmortem.py:262-278 | a refused try means the store was written during it |
| LeaseStore.DoSound | opspilot/persistence/steps.py:244-330 | every operation keeps: each call adopted at most once, under the live lease the row held, in epoch order |
| LeaseStore.DoGrows | opspilot/persistence/steps.py:244-330 | no operation drops an adopted or planned call or turns back an epoch |
| LeaseStore.RunsAreSound | opspilot/worker.py:28-34 | the same over any run of sessions, lapses, suspensions and human decisions |
| LeaseStore.EmptyIsSound | opspilot/worker.py:28-34 | an incident without Runs starts out sound |
| LeaseStore.GoneForGood | opspilot/worker.py:53-61 | a lease the fence refused is never admitted again, and one given back never stands again, over any run |
| LeaseStore.CommitDecides | opspilot/persistence/steps.py:244-330 | a commit is accepted exactly for a planned call under a current lease, UNKNOWN_IDENTITY exactly for a call that was never planned, CONTROL_DENIED otherwise |
| LeaseStore.CommitStores | opspilot/persistence/steps.py:290-330 | the first accepted commit stores the value handed in; a repetition changes nothing |
| LeaseStore.ResultForGood | opspilot/persistence/steps.py:290-296 | over any run of operations an adopted result is the one first stored |
| LeaseStore.RefusedCommit | opspilot/persistence/steps.py:244-330 | a refused commit adopts nothing: it is kept as late history or leaves no trace |
| LeaseStore.CurrentStays | opspilot/persistence/runs.py:535-551 | nothing but a human decision, a new Run, a lapse or suspension of its Run, its own release or its own conclusion ends a current lease |
| LeaseStore.Revokes | opspilot/worker.py:28-34 | a human decision and a new Run end every lease there was, a lapse or suspension those of its Run |
| LeaseStore.ClaimGrants | opspilot/persistence/runs.py:167-239 | a claim is granted exactly on a free and wanted Run of the same versions; a mismatch leaves the Run unwanted, anything else leaves the rows as they are |
| FencedStore.Store.LeaseCurrent | opspilot/persistence/runs.py:535-542 | answers the owner, epoch, generation and expiry fence of the rows it read, or fails |
| FencedStore.Store.Rebuild | opspilot/persistence/incidents.py:216-299 | the current Run, the decision in force and exactly the pending calls, or fails |
| FencedStore.Store.Metadata | opspilot/persistence/incidents.py:301-310 | identity and versions of the current Run without decoding it |
| FencedStore.Store.Renew | opspilot/persistence/runs.py:241-290 | succeeds only for a current lease |
| FencedStore.Store.CommitTool | opspilot/persistence/steps.py:244-330 | success means the call is adopted with the value handed in, unless it already was, CONTROL_DENIED means kept as late history, UNKNOWN_IDENTITY means never planned; the rows are those before it, or those with this one commit, also when the reply is lost |
| FencedStore.Store.Release | opspilot/persistence/runs.py:544-551 | after success this owner, epoch and stamp no longer stand on the row, and every other current lease is still current |
| FencedStore.Store.Claim | opspilot/persistence/runs.py:167-239 | a granted lease is current, of the asked Run and owner, and of matching versions, also when its reply is lost; INCOMPATIBLE_STATE means other versions and a blocked Run |
| FencedStore.Store.Publish | opspilot/persistence/steps.py:387-450 | true means it is the incident's conclusion under the lease's Run; false that the fence or the Run had moved on; a lost reply may hide a publication |
| FencedStore.PendingCalls | opspilot/persistence/incidents.py:249-277 | the listed calls are exactly the planned ones of the current generation without a result |
| RecoverySession.Session.GiveUpRebuild | opspilot/worker.py:69-76 | releases first; reports control instead of corruption only when the identity moved |
| RecoverySession.Session.AssertCurrent | opspilot/worker.py:53-82 | passes only behind a held fence with rows of the lease's Run and generation; fails with this lease's release attempted, or because fence or identity moved on |
| RecoverySession.Session.Settle | opspilot/worker.py:127-141 | a failed renewal after the call never keeps the result from its commit |
| RecoverySession.Session.Attempt | opspilot/worker.py:173-202 | any failure is followed by the release of this lease, attempted, and stays the failure it was |
| RecoverySession.Session.ExecutePending | opspilot/worker.py:149-204 | only pending calls are sent, each once, each behind its own fence and renewal; a normal return means every planned call is adopted and counts the calls sent; every error is excused and a commit error unchanged; every result is adopted, kept as history or lost with the storage |
| RecoverySession.SecondPass | opspilot/worker.py:159-172 | after a complete pass a second one sends nothing, whatever others do meanwhile |
| RecoverySession.Session.Publish | opspilot/worker.py:206-223 | true means published; an error is followed by the attempt to release exactly this lease and stays that error |
| RecoverySession.Worker.GateVersions | opspilot/worker.py:250-263 | the blocking claim never grants a lease |
| RecoverySession.Worker.Refresh | opspilot/worker.py:292-323 | after the claim: exactly the pending calls under it, or the attempt to release that lease |
| RecoverySession.Worker.Resume | opspilot/worker.py:265-324 | a session whose plan is what is pending under its own lease; or an error after which every lease the worker was granted has had its release attempted, the one lease left behind being one whose grant was lost with the claim's reply |
| RecoverySession.SendingMeansUnfinished | opspilot/worker.py:160-172 | a pass that sends anything started with a planned call not adopted |
| UnionFind.Sets.Find | opspilot/retention.py:205-209 | terminates at the least id of the set and adds an unknown id as its own set |
| UnionFind.Sets.Union | opspilot/retention.py:211-214 | same-root becomes connectivity with one more edge; parents never exceed children |
| UnionFind.Sets.Members | opspilot/retention.py:216-220 | maps each root to exactly its set |
| UnionFind.RootAfterLink | opspilot/retention.py:211-214 | hanging the larger root under the smaller redirects exactly its class |
| UnionFind.RefinesAfterLink | opspilot/retention.py:211-214 | union keeps same-root equal to connectivity |
| UnionFind.ConnectedWithEdge | opspilot/retention.py:211-214 | connected after one more edge is connected before or through that edge |
| MergeGraph.MergeGroups | opspilot/retention.py:223-243 | every incident connected to a wanted one is mapped to exactly its component of the pointer graph |
| MergeGraph.GroupsPartition | opspilot/retention.py:223-243 | the groups partition the known incidents |
| MergeGraph.ClassIsComponent | opspilot/retention.py:199-243 | a union-find class is a connected component |
| CleanupUnits.Units | opspilot/retention.py:332-348 | units are exactly the components of "own a row together or share an owner's merge group", disjoint, in order of least member, each with exactly its rows |
| CleanupUnits.MemberIsPulled | opspilot/retention.py:332-348 | nothing is in a unit that no ready row pulls in |
| CleanupUnits.UnitHoldsOwners | opspilot/retention.py:332-348 | a unit holds every owner of its rows and their merge groups |
| CleanupUnits.UnitClosed | opspilot/retention.py:332-348 | a unit is closed under merge groups |
| CleanupUnits.RowInOneUnit | opspilot/retention.py:341-348 | each ready row lies in exactly one unit |
| Retention.NoReasonsMeansCleanable | opspilot/retention.py:246-307 | an incident without reasons is closed long enough ago and referred to by nothing live |
| Retention.ReasonsExactly | opspilot/retention.py:246-307 | a code is reported for an incident exactly when its condition holds, each once and in the reporting order |
| Retention.CleanableMeans | opspilot/retention.py:316-317 | an owner may be cleaned exactly when every known incident connected to it may |
| Retention.ReadyMeans | opspilot/retention.py:427 | a row is ready exactly when every known incident connected to an owner was closed long enough ago and nothing live refers to it |
| Retention.ReadyRowsPicked | opspilot/retention.py:427 | the rows selected are exactly those, in the order of the scan |
| Retention.HeldMeans | opspilot/retention.py:431-440 | an incident is held exactly when it is connected to an owner whose merge group may not be cleaned |
| Retention.ReadyUnitUnkept | opspilot/retention.py:316-348 | no member of a unit of ready rows had a keep reason at the scan |
| Retention.OwnersNotHeld | opspilot/retention.py:427-440 | no owner of a ready row is also reported as blocked by the scan |
| Retention.RecheckDecides | opspilot/retention.py:515-518 | the recheck passes exactly when the unit is its own merge closure and nothing keeps a member |
| Retention.Database.Recheck | opspilot/retention.py:514-518 | answers that condition for the rows under the locks |
| Retention.Database.ApplyUnit | opspilot/retention.py:504-528 | a failed recheck or a rolled back transaction writes nothing; otherwise the recheck held in the same transaction and every row then present is cleaned or reported failed |
| Retention.Scan | opspilot/retention.py:324-329 | groups and reasons of every incident a present row reaches |
| Retention.RunRetention | opspilot/retention.py:409-501 | of the scanned state: the candidates are exactly the rows all of whose connected incidents may be cleaned, in order, and the blocked lines exactly the incidents held back, in id order, each with its own reasons or its group's; every cleaning was rechecked and of a ready row with its owners in the unit; every unit's outcome is told row by row or incident by incident; the lines call cleaned exactly the rows emptied, in order; the summary counts equal the lines |
| Retention.ApplyAll | opspilot/retention.py:449-488 | one transaction per unit in order, all of them unless the connection is lost, each outcome told, every line counted once, cleaned lines and rows emptied the same |
| ValueScanner.ContainerEnd | opspilot/redaction.py:198-220 | the loop computes the bracket automaton |
| ValueScanner.ValueEnd | opspilot/redaction.py:231-257 | the loop computes the value automaton |
| ValueScanner.TailEnd | opspilot/redaction.py:260-266 | the tail of a closed value |
| ValueScanner.ContainerIsDescent | opspilot/redaction.py:198-220 | the automaton with its stack ends where recursive descent closes the container |
| ValueScanner.ValueIsDescent | opspilot/redaction.py:231-257 | the value automaton ends where recursive descent does, at the end of the text behind anything unclosed |
| ValueScanner.ScannersFuse | opspilot/redaction.py:260-292 | container scan then tail scan equals one value scan, for every text with an opening bracket |
| ValueGrammar.ScannerFindsContainer | opspilot/redaction.py:198-220 | the scan ends at the end of the one properly nested container standing there, and a container stands there exactly when it closes |
| ValueGrammar.BodySkipped | opspilot/redaction.py:198-220 | written container content followed by anything is skipped exactly, strings and escapes ignored |
| ValueGrammar.SkippedBody | opspilot/redaction.py:198-220 | whatever is skipped is written container content |
| ValueGrammar.ScannerFindsValue | opspilot/redaction.py:231-257 | the value scan ends at `end` if and only if strings, containers and loose characters, all closed, stand up to `end` and a space, stop or the end of the text follows, or something among them never closes and `end` is the end of the text |
| RedactionRules.Escaped | opspilot/redaction.py:269-274 | whether an odd run of backslashes precedes |
| RedactionRules.EscapedMeansSkipped | opspilot/redaction.py:269-274 | looking back for backslashes agrees with reading forward |
| RedactionRules.ClosesOnLine | opspilot/redaction.py:187-190 | the quoted-value pattern matches exactly the strings that close and hold no newline |
| RedactionRules.ValueRedaction | opspilot/redaction.py:277-295 | nothing exactly when there is nothing to hide; otherwise the whole value, and the marker alone, in double quotes for a container, in its own quotes for a string, unclosed where the string is |
| RedactionRules.RedactionCoversValue | opspilot/redaction.py:277-295 | the same of the specification: the span ends where the value does, or at the end of the text for a quote not closed on its line, and what takes its place is the marker in the quotes the value calls for |
| RedactionRules.HidingMarks | opspilot/redaction.py:277-295 | what is written in place of a value is the marker alone, behind one quote or between two |
| Splicing.NothingLost | opspilot/redaction.py:298-390 | kept slices and replaced spans together are the input |
| Splicing.SpansApart | opspilot/redaction.py:298-390 | spans are disjoint and in order |
| Splicing.SpansDoNotShow | opspilot/redaction.py:298-390 | two texts that keep the same slices around equal markers give the same output, whatever the spans hold |
| ProseRedaction.RedactAssignments | opspilot/redaction.py:376-390 | terminates with the input's credential values replaced and everything else in place |
| ProseRedaction.AssignmentSpansAscend | opspilot/redaction.py:376-390 | its spans are disjoint, ascending, and each a credential's value ending where the scanner says |
| ProseRedaction.RedactQuoted | opspilot/redaction.py:345-373 | terminates with those spans replaced and everything else in place |
| ProseRedaction.QuotedSpansAscend | opspilot/redaction.py:345-373 | its spans are disjoint, ascending, and each a whole value behind a credential's name, replaced by its marker |
| ProseRedaction.KeySpansAscend | opspilot/redaction.py:298-342 | its spans are disjoint, ascending, and each a whole value, replaced by its marker, behind an unescaped quote and a separator, where the name back to the nearest such quote holds an escape and names a secret |
| RedactionCoverage.AssignmentsCovered | opspilot/redaction.py:376-390 | with the leftmost match found, a match is examined exactly when it does not begin in a replaced value |
| RedactionCoverage.AssignmentsExaminedLater | opspilot/redaction.py:380-388 | an examined credential is replaced, so none is left outside the replaced spans |
| RedactionCoverage.QuotedCovered | opspilot/redaction.py:348-371 | a match is examined exactly when it begins neither in a replaced value nor in a bare scalar kept behind a quoted name |
| RedactionCoverage.QuotedExaminedLater | opspilot/redaction.py:356-371 | an examined match is replaced as the value rule says |
| RedactionCoverage.NestedIsPassedOver | opspilot/redaction.py:362-368 | a concrete assignment in such a scalar is not replaced |
| RedactionCoverage.KeysCovered | opspilot/redaction.py:304-340 | every unescaped key end outside the replaced values is examined against everything since the last of them, and redacted as the rules say |
| ProseRedaction.RedactEscapedKeys | opspilot/redaction.py:298-342 | terminates with those spans replaced and everything else in place |
| ProseRedaction.OpeningOf | opspilot/redaction.py:309-326 | stopping the backward walk at the last candidate finds the same opening quote as walking on |
| ProseRedaction.NearestQuoteIs | opspilot/redaction.py:309-326 | the opening found is the nearest unescaped quote of the same kind with no newline between |
| ProseRedaction.SeparatorIs | opspilot/redaction.py:183-184 | the separator is one colon or equals sign with all the spaces around it |
| ProseRedaction.NoEscapeNoSpan | opspilot/redaction.py:299-300 | a text without a backslash has nothing for this pass |
| RedactionSecrecy.HiddenValueDoesNotShow | opspilot/redaction.py:298-342 | two texts that differ only inside one value the pass hides, each a whole value of the same marker, give the same output |
| RedactionSecrecy.KeysMoved | opspilot/redaction.py:304-342 | behind a hidden value the pass does the same whatever stood there |
| RedactionSecrecy.SameKeyBefore | opspilot/redaction.py:304-342 | what the pass decides about a key before a hidden value does not depend on that value |
| PayloadTree.RewriteKeepsShape | opspilot/redaction.py:431-481 | lengths, order and entry counts stay, names stay apart; every non-null value under a credential's name is the marker and every other item is rewritten in its turn |
| PayloadTree.RewriteAtLeaf | opspilot/redaction.py:446-466 | text is redacted, every other scalar and null stay |
| PayloadTree.NamesDistinct | opspilot/redaction.py:467-479 | keys that redact alike get different names |
| PayloadTree.NameIs | opspilot/redaction.py:467-479 | a key's name is its redacted text, or where that is taken the first free of that text with `#2`, `#3` and so on |
| PayloadTree.FreeSuffix | opspilot/redaction.py:474-476 | the suffix search ends, at the least free suffix |
| PayloadTree.UnchangedIsIdentity | opspilot/redaction.py:427-482 | a walk that changed nothing is the identity, tuples aside |
| PayloadTree.ReportedChange | opspilot/redaction.py:427-482 | a change is reported exactly when the rewrite differs or some key redacts to a taken name |
| PayloadTree.BothRedactToPlain | opspilot/redaction.py:277-295 | the value rule redacts a quoted marker, and one with text glued to it, to the same key |
| PayloadTree.ReportedWithoutChange | opspilot/redaction.py:467-478 | the object of these two keys, holding nulls, is its own rewrite and reported as changed |
| PayloadRedaction.FindName | opspilot/redaction.py:469-478 | resuming the search at the remembered suffix finds the same name |
| PayloadRedaction.BuildIsRewrite | opspilot/redaction.py:424-481 | once every destination is whole each holds the rewrite of its source |
| PayloadRedaction.Place | opspilot/redaction.py:431-481 | one item goes to its destination, its change and its pending children recorded |
| PayloadRedaction.RedactPayload | opspilot/redaction.py:410-482 | for every nesting the explicit-stack loop terminates with the recursive rewrite, or the value itself when nothing changed |
| ClockMerge.Merged | opspilot/acceptance_recovery.py:917-958 | every event once, any two in the declared order; marks exactly on rows and queries whose order the clocks cannot tell |
| ClockMerge.QueryIsPlaced | opspilot/acceptance_recovery.py:941-951 | a query follows every row over 60 s earlier and every lower position in the band, and precedes every row over 60 s later |
| ClockMerge.UntimedStays | opspilot/acceptance_recovery.py:920-936 | a row without a time comes after the last timed row before it, with every row of an earlier time before it and every row of a later time after it |
| ClockMerge.UntimedFirst | opspilot/acceptance_recovery.py:920-936 | a row without a time and with no timed row before it comes before every timed row, among its like by position |
| ClockMerge.RecordOrderKept | opspilot/acceptance_recovery.py:920-936 | rows whose own times never fall along the record come in the order of the record |
| ClockMerge.RowsByTime | opspilot/acceptance_recovery.py:929-936 | rows with times of their own come by time, at equal times by position |
| ClockMerge.RowBeforeQuery | opspilot/acceptance_recovery.py:937-952 | a row comes before a query if and only if it, or some row behind it, is over a minute earlier, or at most a minute away or without any time and recorded first |
| ClockMerge.QueriesOrdered | opspilot/acceptance_recovery.py:953-957 | of two queries the one with fewer rows before it comes first; with the same rows before both they come by time, then position |
| ClockMerge.ConfusedMeans | opspilot/acceptance_recovery.py:944-949 | marked are exactly human decisions and endings with times of their own and the queries at most a minute from them |
| ClockMerge.QueriesKeepOrder | opspilot/acceptance_recovery.py:937-957 | a query not earlier and later in position never overtakes |
| ClockMerge.ComesOneWay | opspilot/acceptance_recovery.py:917-958 | the declared order is one order |
| ClockMerge.AfterIsReach | opspilot/acceptance_recovery.py:940-952 | a query is placed behind exactly the rows it reaches |
| ClockMerge.KeyRows | opspilot/acceptance_recovery.py:922-936 | rows sorted by their own time, or that of the last timed row before them, and by position |
| ClockMerge.Weigh | opspilot/acceptance_recovery.py:938-951 | one query's place, and its marks |
| RoundExit.Raised | scripts/eval_live.py:697-703 | taking a new code never lowers the rank |
| RoundExit.Precedence | scripts/eval_live.py:697-703 | 4 over 5, 5 over 130 and 3, those over 1, and 1 over a round without a code |
| RoundExit.EndingIsHighest | scripts/eval_live.py:1137-1148 | a slot stops with the highest of everything that went wrong, 4 exactly for a failed restore |
| RoundExit.Round.Close | scripts/eval_live.py:2249-2311 | an intent left behind by an injecting attempt stops the round with 4 |
| RoundExit.Round.RunSlot | scripts/eval_live.py:998-1148 | a slot that ends normally leaves no own intent; a stop over one is 4 |
| RoundExit.Round.RunSlots | scripts/eval_live.py:777-823 | the slots run in turn until one does not end normally; the code is that of this end, 130 for an interrupt, 5 for lost evidence, 3 for a failure of the lab, and the slots after it did not run |
| RoundExit.Round.WriteOutputs | scripts/eval_live.py:833-855 | a retained own or unreadable intent makes the code 4; failures and stops only raise it |
| RoundExit.Round.Conclude | scripts/eval_live.py:833-881 | the rank never drops after the slots; 0 exactly when every slot ran, both outputs are written, no stop was requested and no own intent is left |
| RoundExit.Round.Run | scripts/eval_live.py:777-881 | the same for a whole round, for every mix of failures, the rank never below that after the slots |
| OutboxDelivery.ScheduledBackoffs | opspilot/outbox_delivery.py:102-105 | scheduled delays grow strictly, never reach the cap and sum to 635 s |
| OutboxDelivery.Settle | opspilot/outbox_delivery.py:314-376 | every claimed row is settled by its one fate and no other |
| OutboxDelivery.FateMeans | opspilot/outbox_delivery.py:314-376 | each fate is met exactly by its own answers: 2xx delivered, 4xx but 408 and 429 rejected, anything else retried up to the eighth attempt |
| OutboxDelivery.FinishSettles | opspilot/outbox_delivery.py:336-376 | an attempt that finishes leaves its pending row delivered when taken, dropped for the reason it failed, or not due before its backoff has passed; a settled row is left alone |
| OutboxDelivery.ClaimLeases | opspilot/persistence/outbox.py:422-474 | a claim touches only a due row: it drops one whose attempts are used up, or counts the attempt and keeps the row from being claimed for thirty seconds |
| OutboxDelivery.OthersUntouched | opspilot/persistence/outbox.py:422-547 | a step about one row leaves every other row as it is |
| OutboxDelivery.DoSound | opspilot/persistence/outbox.py:422-547 | every step keeps attempts counted, at most eight, and no attempt sent twice |
| OutboxDelivery.RunsAreSound | opspilot/outbox_delivery.py:284-376 | over any run with crashes, rows keep their identity and settled rows stay settled |
| OutboxDelivery.SentAtMostEightTimes | opspilot/outbox_delivery.py:102-129 | over any run a row is sent at most eight times, always with the same ids |
| OutboxDelivery.DelaysAreBounded | opspilot/outbox_delivery.py:369-376 | over any run the delays scheduled for a row sum to at most 635 s |
| AlertContext.ContextEntries | opspilot/alertmanager.py:371-394 | of entries that process to one key the first raw key is kept, in key order; the rest are counted; cut exactly when some entry was |
| AlertContext.BeforeMeans | opspilot/alertmanager.py:371-394 | keys compare by the first differing code point, a proper prefix first |
| AlertContext.OrderDoesNotMatter | opspilot/alertmanager.py:371-433 | entries kept, counts and flag of the whole fact do not depend on either map's iteration order |
| AlertContext.MoreIsLonger | opspilot/alertmanager.py:421-426 | one more entry always makes the encoded fact longer |
| AlertContext.Choose | opspilot/alertmanager.py:428-433 | the longest fitting prefix is kept; it fits exactly when the empty fact does |
| AlertContext.EmptyFits | opspilot/alertmanager.py:428-433 | the empty fact fits exactly while the number of entries has at most 8134 digits |
| AlertContext.Context | opspilot/alertmanager.py:397-433 | kept entries and the number omitted add up to the raw entries; labels come first; no longer prefix fits; the fact fits its budget exactly while the number of entries has at most 8134 digits |

## Left out

- `poll_once`, the synchronous entry of the worker loop: it walks one listing over the same slot operations.
- `_sweep`, backlog parking and `last_poll_success`: calls into storage with a flag.
- SQL and locking inside the stores: transactions are atomic steps; budgets, inputs and the content of steps are not stored in the lease model.
- FencedStore.Store.Publish: whether the final step carries the conclusion is an arbitrary answer, because step contents are not modelled.
- FencedStore.Store.Claim: deadlines, pauses and suspensions are an arbitrary refusal.
- The order of `pending_tools`: a resumed plan lists the pending calls in some order.
- Attribution of payload rows to incidents: a scan starts from given rows, and the recheck, like the source's, covers incidents and merge groups, not row ownership.
- The status, schedule and attempts in `records.view`: they move without a generation and are outside the boundary by design (`opspilot/acceptance_postmortem.py:50-51`).
- The projections of postmortem records (`_project`, `_version`, `_conclusion`): field copying with one-branch checks.
- RedactionSecrecy.HiddenValueDoesNotShow: only for the escaped-key pass; the finders of the other two passes are parameters and may depend on the whole text.
- Name tests, the finding patterns of prose redaction, the authority and scheme substitutions, and idempotence of the whole `redact_credentials`.
- Aliasing of payload destinations: destinations are indices into an arena instead of shared dictionaries and lists.
- `_sample_jobs`, `_query_events` and `_actions` around the merge: folds that build its input.
- RoundExit.Round.RunSlot: injection, investigation and observation are arbitrary outcomes; a driver error outside every handler is not modelled.
- `alert_hold` and the gates of a live attempt: waiting loops over external observations.
- Span construction, hashing, HTTP and the purge of old outbox rows.
- `_context_text`: redaction, printability and cutting of one text; the JSON width of a string is a parameter.
- Schema dumps, migrations and downgrade plans: they work on the text and the state of an external database.
