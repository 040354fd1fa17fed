# Verified model of the attendance kiosk and its tools

A Dafny model of the parts of the repository where a mistake is hard to see: protocols that must
survive lost messages and power cuts, the algorithms that lay and check the copper of the board,
and the printers and readers that must agree with each other. `dafny verify dfyconfig.toml` checks
everything.

| file | what it models |
|---|---|
| `Roster.dfy`, `RosterRuns.dfy`, `RosterCuts.dfy`, `RosterWaiting.dfy` | the kiosk's replica of the server's face-table log: the gate, the batch, every run with lost, repeated and reordered pushes, captures and failing reads and writes, what power cuts leave, and who waits for a capture |
| `ModelTrial.dfy` | the A/B slot of the model pack and the trial a new pack stands |
| `FrameHandoff.dfy` | the depth-1 hand-off of camera frames between two tasks |
| `CommandRing.dfy`, `PendingList.dfy`, `WavWalk.dfy` | the ring of seen command ids, the list of people to capture and its NVS image, the walk over a sound file |
| `PathSearch.dfy`, `SpanningTree.dfy`, `RouteJobs.dfy`, `RipUp.dfy` | the router: A* over (cell, facing, layer), the tree that joins a net, the list of edges, the rip-up-and-retry loop |
| `CopperGroups.dfy`, `OutlineBoxes.dfy` | the copper checker: union-find over touching copper, loops gathered from segments |
| `LayerCheck.dfy` | the firmware layer checker |
| `SExpr.dfy` | the s-expression printer and its two readers |
| `Codec.dfy` | the C codec generated for a payload schema, as an interpreter over any schema |
| `Outbox.dfy`, `OutboxRuns.dfy`, `OutboxAhead.dfy`, `OutboxCases.dfy` | the browser's offline outbox: one tab's code, every run of many tabs that share a refresh cookie against a server, what a flush may still post, and runs that show where it falls short |
| `Csv.dfy` | the CSV writer against a reader that follows section 2 of RFC 4180 |
| `Walks.dfy`, `Names.dfy`, `Wrappers.dfy` | undirected walks, the order of names, a value that may be absent: shared |

Where the source changes variables in place the model is a method or a class, proved against a
function or a predicate; what that function promises is then proved as lemmas. Where several tasks
or machines take turns, the model is a state machine whose events are the points at which the
source can be interrupted or can fail, and the claims are over every run.

## What was found

Some promises hold only on a condition. Each has a lemma with a concrete input that breaks it and,
where the condition can be named, a lemma that says exactly when it holds.

- For every arrival order, with losses, repeats, reorderings, refusals, busy answers, failed saves and
  new captures, the replica is the log replayed whenever it does not hold for a gap
  (`OrdinaryRunsConverge`); a slot none of whose faces the kiosk reported or dropped is, whatever
  becomes of the others (`SlotConverges`), and the next counted operation that speaks of a slot puts
  it right (`SlotHeals`). Beyond that the replica stays right if and only if every step is kept
  (`RunConverges`), and the steps that may not be are these, each with its exact condition:
  - A template or capture dropped leaves its slot right exactly when the log has the slot empty
    (`SlotGone`). The everyday case is a retake: keeping the new session drops the server's template
    of the old bank (`RetakeDropsServers`). A push for a slot an enrolment under way has filled
    overwrites the sample and goes with the bank if the enrolment is left unfinished
    (`UnfinishedDropsPush`).
  - A capture reported leaves its slot right exactly when the log has the same face (`CaptureGone`).
  - A push that meets a capture not yet reported is counted and spared, so it lands exactly when the
    slot is no capture or one of the same face (`UpsertLands`, `SparedThenGone`). A newer session of
    the same person then drops the capture, and neither face is left (`NewerSessionDropsSpared`).
  - The write of the cursor is not checked (firmware/main/app_tasks.c:974); when it is lost the kiosk
    goes on with a table ahead of the number it reports (`LostCursorWriteSplitsTable`), unless the
    numbers lost say nothing of the slots it does not hold (`LostCursorWrite`).
  - Nor is its read (firmware/main/app_tasks.c:281-286): when it fails the batch starts at 0 and a
    repeat of the first push is taken again on a newer table (`FailedReadTakesRepeat`,
    `FailedCursorRead`).
- "The cursor follows the table: a power cut costs a push, never a claimed version"
  (firmware/main/app_tasks.c:972) holds, in every slot the kiosk never writes itself, wherever flash
  stands no lower than the cursor, with no condition on what arrives or is not saved
  (`ServersSlotSurvives`). At any point of any run, a cut and a replay restore a slot flash does not
  hold as a capture exactly when a later operation speaks of it or flash has what the log says at the
  cursor (`CutExactly`). For `RunSafe` and `CutAndReplay`, which are about every slot by itself, this
  leaves out four cases, each about that slot alone and each with its exact condition:
  - a template dropped, or a capture reported, whose face the log does not have, saved by anyone
    before the cut (`DropThenCut`, `ReportThenCut`; a retake is one, `RetakeThenCut`);
  - a sample of an enrolment under way that another task saves: it carries no mark and the boot keeps
    it as a template (`SampleThenCut`, `SampleOutlivesCut`);
  - a push spared for a capture flash does not have, in a batch that saves nothing (`SparedThenCut`);
  - a push taken on a table that stands below the number it is counted from, which takes a cut while
    flash stands below the cursor, or a cursor write or read, or a boot's reset of the cursor, that
    fails unseen (`WindowIsNarrow`).
- Flash stands below the cursor only while a batch that lowered it is under way, and after a save of
  such a batch that failed, until a REPLACE_ALL is saved (`WindowIsNarrow`,
  `FailedSaveOpensWindow`). After a cut there a slot comes back exactly when a later operation speaks
  of it or the log has it empty at the cursor (`LoweredCut`; the general form is `WindowCut`;
  `LowReplaceAllLosesTable` and `PurgeLosesTable` lose everyone). A boot's reset of the cursor that is
  lost does the same (`LostReset`, `LostResetLosesTable`; firmware/main/app_boot.c:325-326, 347-350).
- `parse` says re-emitting is lossless (hardware/gen/gen_pcb.py:136). It is, exactly when every list
  that does not fit one line opens with an atom; `((a))` comes back as `()` (`RoundTrip`,
  `NestedHeadIsLost`).
- "Walled in by the pads" (hardware/gen/gen_pcb.py:798) is accurate for every tag outside the
  declared trees. In a tree an earlier branch of its own may be all that stands in the way, as on a
  board that is one strip (`TreeBlocksItself`); the pads are to blame exactly when a ring of cells
  they bar closes round the first pad without the runs (`PadsToBlame`, `RingOrTrail`).
- The generated codec restores a struct exactly when every present enum is in range and every
  present integer is one a double can hold; the first one that is not is 2^53 + 1
  (`RecordRoundTrip`, `FirstInexact`).
- Undo restarts of a model pack are bounded by the packs armed plus the NVS calls that failed where
  the code does not look; one lost mark gives one restart more than packs armed
  (`UndosBounded`, `LostUndoMarkRestartsAgain`).
- "The models pack went back to the slot before it" (firmware/main/app_tasks.c:1414) is so exactly when
  the writes of the active slot that took between the trial mark and this revert are odd in number
  (`UndoGoesBack`). A cut between the mark and the slot makes the old pack stand the trial, and its undo
  puts the new one in unmarked and untried (`UntriedPackServes`).
- A rule that cuts pads out of a net passes over a pair it should keep together when neither pad is left,
  or neither was ever on the net; otherwise it passes exactly when the pairs it parts are unlinked and
  those it keeps are linked (`RulePasses`, `CutFaults`).
- A text reads as a tree exactly when no bracket closes too many and some front of its tokens balances;
  what follows the first such front is dropped unseen (`ReadIsFirst`).
- The owner check of a flush is not what the request leaves under: the ticket is attached later, and
  may come from a renewal of the cookie all tabs share (frontend/lib/api.ts:13-20, 58-72). With
  another account signed in elsewhere, one account's entry becomes another's row (`AnothersRow`).
  Every post carries its owner's ticket exactly when every ticket attached after a check was still of
  the account checked (`PostsAreOwners`), and it is so when, while a request is on its way, nobody
  else signs in to its tab and the cookie a renewal is answered from is that account's
  (`CalmRunsAreOwners`).
- A 401 counts as the server's answer when no session can be had for sending the request again, or
  when the request sent again gets one too: the entry leaves the device without a row and without a
  refusal, never posted (`UnfiledIsDropped`) or posted once (`PostedIsDropped`). A flush drops an entry
  on the server's word exactly when its last event was no such 401 (`DropsOnWordIff`), and an entry of
  somebody's that is gone undropped, without a row or a refusal, met one (`GoneUnheard`).
- An entry its owner agreed to drop can still be posted by a flush that already listed it
  (`DroppedCanStillBePosted`), or sent again after a 401 (`DroppedIsResent`): exactly while that flush
  has it ahead, with the account here staying (`DroppedIsPostedIff`) or not (`DroppedIsPostedEver`).
  The drop itself reaches only what the tab lists (`DropLeaves`, `DropIsWhole`).
- The CSV file is read back exactly when no row is empty; in the Excel file two different cells look
  alike exactly when one is the other with the apostrophe already typed (`RoundTrip`,
  `InertCollides`).
- A first delivery is dropped exactly when its id is empty and fewer than eight ids were passed on
  before (`FirstDelivery`; `EmptyIdDropped` is one).
- Once `check_graph` is silent `find_cycles` can add nothing, so the cycle search only ever repeats a
  failure (`Run`).

## Assumptions

- Roster: the operation numbered n is the n-th of the server's log, a REPLACE_ALL included, and the
  upserts that refill the table carry the numbers after it. Whether the kiosk has room for an upsert
  is fixed for each operation; a refusal counts as a no-op. A slot is the kiosk's own while it holds a
  capture not yet reported or a sample of an enrolment under way; every other slot is claimed. The
  face table is the map svc_facedb keeps, with its busy and full answers. The stored number has 32
  bits in the source; the model's is unbounded, and the stale test comes first in both.
- Router: a cell is a number below 791 x 606, pads sit on cells, and the heap may return any of the
  entries of least rank. The sentinel 1 << 30 is proved never to be reached. Which cells a pad, a run
  or printed ink keeps is given, as functions of the board.
- Spanning tree: coordinates are reals, no pad is listed twice, any lightest edge may be picked.
- Copper: "near enough" and "inside a cut pad" are given predicates. Rounding of endpoints in
  `boxes_from` is a given function.
- Codec: strings are C strings counted in bytes; `(float)` is a given function; a cast out of range,
  which C leaves undefined, gives 0; any cJSON allocation may fail.
- Outbox: each entry has its own key; a server answers a repeated key with the row it already has;
  any request, any answer, any renewal and any IndexedDB call may be lost or fail, any tab may close.
  A renewal gives a session of the account the cookie is for when the server answers it.
- Pending list: an image in NVS of the right layout and size is one this code saved.
- Model trial, frames: each NVS write and each queue call is one atomic step; a write may fail.

## Model

| member | source | states |
|---|---|---|
| `RosterRuns.OrdinaryRunsConverge` | firmware/main/app_tasks.c:901-977 | for every arrival order with losses, repeats and reorderings, whatever is refused, busy, captured or not saved: a fresh kiosk that does not hold for a gap has the log replayed to the number it stands at, in every slot it does not hold, and the numbers taken are one run without a hole |
| `RosterRuns.OrdinaryIsKept` | firmware/main/app_tasks.c:924-977 | each such step keeps the table the log replayed with no further condition |
| `RosterRuns.SlotConverges` | firmware/main/app_tasks.c:901-977 | the same for one slot whose faces the kiosk never reported or dropped, whatever becomes of the others |
| `RosterRuns.SlotHeals` | firmware/main/app_tasks.c:948-961 | the next counted operation that speaks of a slot puts it right whatever it held |
| `RosterRuns.RunConverges` | firmware/main/app_tasks.c:924-977 | over every run without power cuts, faults and the kiosk's own writes included: the table is the log replayed at every point if and only if every step is kept |
| `RosterRuns.ReplicaIsLogReplayed` | firmware/main/app_tasks.c:901-912 | the same from a fresh kiosk, slot by slot |
| `RosterRuns.StepConverges` | firmware/main/app_tasks.c:924-977 | one step, exactly: which steps keep the table the log replayed |
| `RosterRuns.UpsertLands` | firmware/main/app_tasks.c:839-855 | a usable push with room lands if and only if its slot is no unreported capture, or one of the same face |
| `RosterRuns.SlotGone` | firmware/main/app_tasks.c:2266-2271 | a slot dropped, whoever wrote it, is left right if and only if the log has it empty |
| `RosterRuns.RetakeDropsServers` | firmware/main/app_tasks.c:2326-2329 | a retake finished: the server's template of the old bank is dropped, with no hold and the cursor at the end of the log |
| `RosterRuns.UnfinishedDropsPush` | firmware/main/app_tasks.c:2313-2320 | a run in which a push overwrites a sample of an enrolment and goes with its bank |
| `RosterRuns.CaptureGone` | firmware/main/app_tasks.c:738-747 | a capture reported leaves its slot right if and only if the log has the same face; one dropped, if and only if the log has it empty |
| `RosterRuns.SparedThenGone` | firmware/main/app_tasks.c:846-850 | after a push was spared, dropping the capture loses the slot, reporting it is right exactly for the same face |
| `RosterRuns.NewerSessionDropsSpared` | firmware/main/app_tasks.c:2326-2329 | a run in which a push is spared for a capture and a newer session drops the capture: neither face is left |
| `RosterRuns.LostCursorWrite` | firmware/main/app_tasks.c:973-976 | a lost cursor write leaves the table right if and only if the numbers it loses say nothing of the slots the kiosk does not hold |
| `RosterRuns.LostCursorWriteSplitsTable` | firmware/main/app_tasks.c:973-976 | a lost write that leaves the table ahead of the number, with no hold |
| `RosterRuns.FailedCursorRead` | firmware/main/app_tasks.c:281-286 | a batch begun at 0 because the read failed, and the first push taken again: right if and only if the log says nothing of the other slots |
| `RosterRuns.FailedReadTakesRepeat` | firmware/main/app_tasks.c:927-935 | such a batch that ends with a template of number 2 under number 1, with no hold |
| `RosterRuns.QuietMoves` | firmware/main/app_tasks.c:953-954 | an operation that asks for no save changed no face and speaks of no slot but one it spared |
| `RosterRuns.BatchIsRun` | firmware/main/app_tasks.c:924-977 | what take_roster leaves behind, for any queue of pushes, purges and notes and any of its reads and writes failing, is what the machine reaches |
| `RosterRuns.DrainIsRun` | firmware/main/app_tasks.c:930-962 | draining the queue is the machine's events one after another |
| `RosterCuts.ServersSlotSurvives` | firmware/main/app_tasks.c:963-976 | in a slot the kiosk never writes itself, over every run with cuts outside the window and nothing failing unseen: RAM and flash hold what some log prefix at or beyond the number they stand at said, and a cut with a replay leaves the server's value |
| `RosterCuts.CutExactly` | firmware/main/app_tasks.c:963-976 | at any state at all, a cut and a replay restore a slot flash does not hold as a capture if and only if a later operation speaks of it or flash has what the log says at the cursor |
| `RosterCuts.RunSafe` | firmware/main/app_tasks.c:963-976 | crash safety of one slot over every run, power cuts anywhere, whatever befalls other slots; left out for that slot are a drop or report of a face the log does not have, a cut on a sample another task saved, a push spared for an unsaved capture in a batch that saves nothing, and a push taken on a table below its number |
| `RosterCuts.StepSafe` | firmware/main/app_boot.c:314-356 | one step of that, with the same cases left out, the two boots that reset the cursor included |
| `RosterCuts.CutAndReplay` | firmware/main/app_tasks.c:972-976 | after any such run, a cut where flash stands no lower than the cursor, and a replay, leave the server's value in the slot unless flash holds it as a capture |
| `RosterCuts.DropThenCut` | firmware/main/app_tasks.c:2266-2271 | a template dropped, saved and cut: right if and only if a later operation speaks of it or the log has it empty at the cursor |
| `RosterCuts.ReportThenCut` | firmware/main/app_tasks.c:738-747 | a capture reported, saved and cut: right if and only if a later operation speaks of it or the log has the same face |
| `RosterCuts.SampleThenCut` | firmware/main/app_tasks.c:2372-2385 | a sample saved by another task and cut: likewise |
| `RosterCuts.SampleOutlivesCut` | firmware/components/svc_facedb/src/facedb.cpp:175-228 | a sample that carries no mark outlives a cut as a template no log knows |
| `RosterCuts.RetakeThenCut` | firmware/main/app_tasks.c:2326-2329 | a retake's drop, saved and cut: the server's template does not come back |
| `RosterCuts.ReplayRestores` | firmware/main/app_tasks.c:924-962 | a replay from the cursor makes a slot right if and only if a later operation speaks of it or it was right already |
| `RosterCuts.WindowCut` | firmware/main/app_tasks.c:963-976 | a cut where flash stands at any one number: a slot comes back if and only if a later operation speaks of it or the log says the same at both numbers |
| `RosterCuts.LoweredCut` | firmware/main/app_tasks.c:2043-2056 | a purge or a REPLACE_ALL at any kiosk, cut between its two writes: a slot comes back if and only if a later operation speaks of it or the log has it empty at the cursor |
| `RosterCuts.WindowIsNarrow` | firmware/main/app_tasks.c:924-977 | flash stands below the cursor only inside a batch that changed the table and before its cursor write, or after a save that failed and until a later batch saves; no push is taken on a table below the number it is counted from |
| `RosterCuts.FailedSaveOpensWindow` | firmware/main/app_tasks.c:965-970 | a purge whose save fails, another task's save and a cut: the face is gone after the replay |
| `RosterCuts.LostReset` | firmware/main/app_boot.c:346-350 | a lost reset and a save of the emptied table, at any kiosk: the same condition |
| `RosterCuts.SparedThenCut` | firmware/main/app_tasks.c:846-850 | a push spared in a batch that saves nothing, then a cut: the slot comes back if and only if a later operation speaks of it or flash had the pushed face |
| `RosterCuts.LowReplaceAllLosesTable` | firmware/main/app_tasks.c:901-976 | a REPLACE_ALL delivered again below the cursor and a cut between the two writes: the face is gone after the replay |
| `RosterCuts.PurgeLosesTable` | firmware/main/app_tasks.c:2043-2056 | the purge of a dead ticket, cut at the same place, does the same |
| `RosterCuts.LostResetLosesTable` | firmware/main/app_boot.c:346-350 | a boot that drops the table, loses its cursor reset and saves does the same |
| `RosterCuts.AtTwoIsSound` | firmware/main/app_tasks.c:924-977 | the state these cuts start from keeps every invariant, so the cut is what breaks it |
| `RosterCuts.ApplyNext` | firmware/main/app_tasks.c:835-893 | an operation taken in turn moves the prefixes the table may mirror up with it, for every kind and refusal |
| `RosterCuts.ApplyReplaceAll` | firmware/main/app_tasks.c:873-877 | a REPLACE_ALL restates the roster at its own number whatever the table held |
| `Roster.Kiosk.ApplyRoster` | firmware/main/app_tasks.c:835-893 | the method's outcome, table and pending list are those the runs are about, on every branch; what they come to is said by `OutcomeIs`, `CapturesSurvive` and `RunHeeds` |
| `Roster.Kiosk.TakeRoster` | firmware/main/app_tasks.c:924-977 | drain, save, then move the cursor; a save that fails moves neither flash nor cursor and makes the kiosk hold; a read or write of the cursor that fails is passed over |
| `Roster.OutcomeIs` | firmware/main/app_tasks.c:835-893 | an operation fails only on a busy table, and exactly if it would write it; which ones are counted undone |
| `RosterWaiting.RunHeeds` | firmware/main/app_tasks.c:835-962 | over every run: an employee waits for a capture, and under which name, exactly as the last assignment, revocation, deletion, restatement, landed push, purge or capture note acted on says, or as at the start if none spoke of them |
| `RosterWaiting.StepHeeds` | firmware/main/app_tasks.c:835-962 | one step: what it says of an employee is done, and nobody else's entry moves |
| `RosterWaiting.WaitingConverges` | firmware/main/app_tasks.c:901-977 | over every arrival order on a fresh kiosk that does not hold for a gap: who waits is what the log alone says at the number it stands at, for an employee of whom no capture is noted, no push spared and no assignment turned away |
| `RosterWaiting.CapturesSurvive` | firmware/main/app_tasks.c:845-877 | a capture not yet reported is left alone by every operation but a delete of its slot or person and the purge |
| `RosterWaiting.RestartEndsHold` | firmware/main/app_tasks.c:901-961 | a REPLACE_ALL that is done ends the hold at its own number and leaves only captures |
| `RosterWaiting.GateHolds` | firmware/main/app_tasks.c:903-912 | a repeat does nothing, a number beyond the next only makes the kiosk hold, and the next one counts |
| `ModelTrial.UndosBounded` | firmware/main/app_boot.c:127-147 | no reboot loop: over every run with power cuts, undo restarts never outnumber packs armed plus unchecked NVS failures |
| `ModelTrial.AtMostOneMore` | firmware/main/app_boot.c:139-146 | from any point on, with nothing armed and no NVS failure, at most one more undo begins, none without a pack on trial |
| `ModelTrial.JudgedByTheEnd` | firmware/main/app_boot.c:174-193 | no pack on trial reaches the end of boot unjudged unless NVS failed in that boot |
| `ModelTrial.KeptOnEvidence` | firmware/main/app_boot.c:174-187 | over every run: a kept mark is about to be written if and only if the last thing that happened was vision up and every branch answering, on a pack on trial |
| `ModelTrial.MarkIsLast` | firmware/main/app_tasks.c:1407-1415 | the mark is what the writes that took say, cleared where an undo is told to the server |
| `ModelTrial.ServedByCount` | firmware/components/sys_storage/src/sys_storage.c:1041-1075 | over every run the slot served is the one NVS names, the first or the other as the writes of it that took are even or odd in number |
| `ModelTrial.UndoGoesBack` | firmware/main/app_boot.c:188-192 | an undo returns to the slot served before the pack was armed if and only if the writes of the slot since were odd in number |
| `ModelTrial.UntriedPackServes` | firmware/main/app_tasks.c:1209-1214 | a run in which a cut between mark and slot ends with the new pack served, unmarked and untried, nothing having failed |
| `ModelTrial.TrialsAddUp` | firmware/main/app_tasks.c:1390-1417 | over every run, each pack armed was kept or undone by a mark, armed over, or is on trial; telling the server of an undo settles nothing |
| `ModelTrial.TrialEndsTwoWays` | firmware/main/app_boot.c:184-190 | the trial mark only ever turns into Kept or Undone |
| `ModelTrial.LostUndoMarkRestartsAgain` | firmware/main/app_boot.c:144-146 | the bound is met: one pack, one lost mark, two restarts |
| `ModelTrial.StepPaid` | firmware/main/app_tasks.c:1209-1214 | the marked-before-armed order pays for every undo, step by step |
| `FrameHandoff.StepConserves` | firmware/main/app_tasks.c:1501-1512 | one step of either task keeps every buffer in exactly one place and releases none twice |
| `FrameHandoff.NothingLostOrDoubled` | firmware/main/app_tasks.c:1714-1753 | over every interleaving no buffer is lost or doubled, the send after displacing never fails, at most three buffers are out |
| `FrameHandoff.SeenRises` | firmware/main/app_tasks.c:1737-1753 | ai_task never receives a frame older than one it received |
| `FrameHandoff.OneTurn` | firmware/main/app_tasks.c:1501-1512 | one turn of cam_task: the frame grabbed is queued and the one it displaced is back in the pool |
| `FrameHandoff.OfferQueues` | firmware/main/app_tasks.c:1507-1511 | at any point of any run, an offer leaves exactly that frame on the queue |
| `FrameHandoff.LastOfferIsTaken` | firmware/main/app_tasks.c:1735-1753 | with nothing offered since, ai_task receives exactly the frame last queued, once |
| `FrameHandoff.ReadInPeace` | firmware/main/app_tasks.c:1737-1753 | the frame received is the one queued, and its buffer stays out of the pool until ai_task gives it back, whatever cam_task does |
| `CommandRing.Ring.AlreadyRan` | firmware/main/app_tasks.c:1307-1319 | the array with its wrapping index is exactly the last eight ids passed on |
| `CommandRing.Ring.TakeAll` | firmware/main/app_tasks.c:1321-1328 | what gets past the ring for any queue |
| `CommandRing.AtLeastEightBetween` | firmware/main/app_tasks.c:1305-1319 | over any deliveries an id passes again only after eight others, all distinct, came between |
| `CommandRing.FirstIsPassedOn` | firmware/main/app_tasks.c:1305-1319 | the first delivery of a non-empty id is never dropped |
| `CommandRing.FirstDelivery` | firmware/main/app_tasks.c:1307-1319 | the first delivery of an id is dropped if and only if the id is empty and fewer than eight were passed on |
| `CommandRing.EmptyIdDropped` | firmware/main/app_tasks.c:1309-1315 | an empty id is dropped on a fresh ring |
| `PendingList.Pending.Assign` | firmware/main/app_tasks.c:752-771 | the array refines a map from employee to name; it fails only for somebody new on a full list; a renaming is not saved |
| `PendingList.Pending.Revoke` | firmware/main/app_tasks.c:773-787 | exactly one person leaves the map, rows past the count are zero, and RAM and NVS name the same people when the save takes |
| `PendingList.Pending.RevokeAll` | firmware/main/app_tasks.c:789-794 | the list is empty in RAM, and in NVS if the save takes |
| `PendingList.Pending.Load` | firmware/main/app_tasks.c:701-709 | the list comes back as last saved, or empty when the blob will not read, has another layout or too many rows |
| `PendingList.Pending.Offer` | firmware/main/app_tasks.c:669-687 | the page shown always lies inside the list, is full when it can be, is empty only if the list is, and marks a row as a retake exactly when a face is held |
| `PendingList.SwapRemoved` | firmware/main/app_tasks.c:779-782 | moving the last row into the hole leaves everyone else named as before |
| `WavWalk.PcmOf` | firmware/main/app_tasks.c:2409-2434 | it ends, reads inside the file, never wraps its cursor, and returns the samples of the first data chunk, none unless the latest fmt chunk before it is the playable one |
| `WavWalk.ChunkInside` | firmware/main/app_tasks.c:2416-2431 | every chunk the walk meets has its header inside the file |
| `WavWalk.WrittenIsFound` | firmware/main/app_tasks.c:2416-2431 | whatever chunks were written, pad bytes and all, the walk finds them all, in order, with their names, sizes and bodies |
| `WavWalk.PlaysBeforeIs` | firmware/main/app_tasks.c:2416-2427 | the latest fmt chunk before the data decides |
| `PathSearch.FindPath` | hardware/gen/gen_pcb.py:544-599 | optimal and complete: a trail returned is legal, joins the pads and costs no more than any other legal trail under any first facing; none is returned only if no legal trail exists |
| `PathSearch.NothingCheaper` | hardware/gen/gen_pcb.py:567-599 | while the least rank on the heap is known, no trail through a known state is cheaper |
| `PathSearch.FarBounds` | hardware/gen/gen_pcb.py:563 | the distance the heap is ordered by never exceeds the price of a legal trail |
| `PathSearch.WalkBack` | hardware/gen/gen_pcb.py:573-579 | following came always ends at a start state, on a legal trail that costs exactly what the state does |
| `PathSearch.RelaxCheaper` | hardware/gen/gen_pcb.py:592-598 | a cheaper way never reopens an expanded state, and the invariant survives it |
| `PathSearch.MovesFrom` | hardware/gen/gen_pcb.py:580-591 | the moves tried are all legal moves out of a state, each at its price |
| `PathSearch.PriceLast` | hardware/gen/gen_pcb.py:552-589 | what each seat adds to a trail's price: 30 for a via, otherwise 1, 1 more on the wrong side and 6 more for a turn |
| `PathSearch.LinkIs` | hardware/gen/gen_pcb.py:577-583 | a legal link, in rows and columns |
| `SpanningTree.SpanningEdges` | hardware/gen/gen_pcb.py:385-399 | n - 1 edges that join all n pads, none of them spare, and of no more total weight than any edges that join them |
| `SpanningTree.Exchange` | hardware/gen/gen_pcb.py:392-396 | an edge that leaves the inside may be traded into any joining set for one of its own |
| `SpanningTree.LightestKeepsPromise` | hardware/gen/gen_pcb.py:392-396 | laying a lightest edge keeps every rival beatable |
| `SpanningTree.FewestEdges` | hardware/gen/gen_pcb.py:385-399 | joining n pads takes n - 1 edges at least |
| `SpanningTree.TreeHasNoCycle` | hardware/gen/gen_pcb.py:385-399 | with n - 1 joining edges, dropping any one parts two pads |
| `SpanningTree.WeightOrders` | hardware/gen/gen_pcb.py:392-395 | edges compare as the straight distances between their pads do |
| `RouteJobs.RouteJobs` | hardware/gen/gen_pcb.py:696-706 | the declared trees, then a lightest tree for each searched net, each net once, most pads first and then by name, nothing else |
| `RouteJobs.DrawBoard` | hardware/gen/gen_pcb.py:768-811 | from pads to copper: a finished board links any two pads of a searched net by laid runs of that net, and every laid trail is clear of strangers and of the runs before it |
| `RouteJobs.PlanIsLaid` | hardware/gen/gen_pcb.py:696-811 | a run for every planned edge links what the plan links |
| `RipUp.RouteBoard` | hardware/gen/gen_pcb.py:768-803 | at every turn queued and placed are together the job list; it searches at most twelve times an edge; on a normal exit every job is laid once, and every laid trail is clear of the board's rim, of every stranger's pad at the clearance its net or the tag asks for, of printed ink under its vias and of every run laid before it; lifting takes the newest other run and retries the same edge first; the nine-times and walled-in exits leave no fitting trail, the latter not even on the bare board outside the trees, and in a tree exactly when a ring closes without the runs |
| `RipUp.OneRun` | hardware/gen/gen_pcb.py:709-757 | the cheapest trail clear of rim, ink, strangers' pads and laid runs, said in the board's own fields, or none is |
| `RipUp.OneField` | hardware/gen/gen_pcb.py:715-746 | a painted cell is exactly one that is not clear: on the rim, under ink for a via, in the keep-out of a pad of another routing net, or in the halo or extra gap of a run of another tag or tree branch, outside the two discs |
| `RipUp.FitsIsJoins` | hardware/gen/gen_pcb.py:747 | fitting the board is being legal on the painted fields |
| `RipUp.FitsIsClear` | hardware/gen/gen_pcb.py:715-747 | a trail fits if and only if every seat but those on the two pads' own copper is off the rim, off every stranger's keep-out at the wider of the two classes, and off every halo, apart from the extra gap near the pads; and every via likewise, off the ink, on both layers |
| `RipUp.StrangerBlocks` | hardware/gen/gen_pcb.py:720-724 | a board where one stranger's keep-out is the only obstacle, and no trail fits |
| `RipUp.FitsAmongFewer` | hardware/gen/gen_pcb.py:800 | a trail still fits once runs are lifted |
| `RipUp.LiftOne` | hardware/gen/gen_pcb.py:796-802 | lifting any run loses no job and unsettles no other run |
| `RipUp.NewestForeign` | hardware/gen/gen_pcb.py:796 | the victim is the newest run of another tag, or there is none |
| `RipUp.PadsToBlame` | hardware/gen/gen_pcb.py:796-798 | the walled-in message is accurate if and only if a ring closes round the first pad without the runs; every trail the bare board allows crosses a run |
| `RipUp.RingOrTrail` | hardware/gen/gen_pcb.py:747-749 | no trail fits if and only if some ring of barred cells parts the two pads |
| `RipUp.TreeBlocksItself` | hardware/gen/gen_pcb.py:728-731 | a board where a declared tree's own first branch is the only obstacle to its second |
| `RipUp.OwnTagBarsNothing` | hardware/gen/gen_pcb.py:797-798 | with only its own tag laid, an edge outside the trees that finds no way has none on the bare board |
| `CopperGroups.Joined` | tools/check_pcb.py:295-320 | two bits left after the cut share a group if and only if a chain of touches links them, and each group is exactly the ids of its bits |
| `CopperGroups.Root` | tools/check_pcb.py:300-304 | path halving ends, on the root, and moves no bit to another tree |
| `CopperGroups.HalvePath` | tools/check_pcb.py:302 | halving keeps the forest and goes down in height |
| `CopperGroups.Unite` | tools/check_pcb.py:306-316 | after the pair loop the trees are the groups of touching copper |
| `CopperGroups.AddLink` | tools/check_pcb.py:316 | hanging one root under another adds exactly one link to what is connected |
| `CopperGroups.PadsShareGroup` | tools/check_pcb.py:317-320 | two pads are named in one set exactly when their copper is in one group |
| `CopperGroups.NetInPieces` | tools/check_pcb.py:326-333 | a net is reported in pieces exactly when two of its pads have no chain of copper between them |
| `CopperGroups.CutFaults` | tools/check_pcb.py:339-351 | one rule, its pads cut out: it names exactly the pairs to part that a chain of touches still links, and the pairs to keep that none does, in order |
| `CopperGroups.RulePasses` | tools/check_pcb.py:346-351 | when a rule is silent, the pairs with neither pad left included |
| `CopperGroups.PlacesAre` | tools/check_pcb.py:297 | the cut takes out exactly the bits named |
| `CopperGroups.LiveIs` | tools/check_pcb.py:297 | and leaves the others as they were, in their order |
| `CopperGroups.IdsAre` | tools/check_pcb.py:317-320 | the ids of a group are those of its bits, and no empty one |
| `OutlineBoxes.BoxesFrom` | tools/check_pcb.py:150-169 | one box for each class of segments linked by shared endpoints, and it is that class's bounding box |
| `OutlineBoxes.GatherNext` | tools/check_pcb.py:153-160 | a new segment merges exactly the loops it touches, loops stay apart |
| `OutlineBoxes.SharedIs` | tools/check_pcb.py:153-156 | two segments share an endpoint when either end of one rounds to either end of the other |
| `LayerCheck.CheckGraph` | tools/check_layers.py:101-133 | it reports every broken rule once and nothing else, by component and then by dependency, so it is silent exactly when every component keeps them |
| `LayerCheck.FindCycles` | tools/check_layers.py:136-157 | every list is a real closed walk; every closed walk of the graph takes the last step of some list; no two lists close on the same step; none is found if and only if the graph is acyclic |
| `LayerCheck.Finder.Walk` | tools/check_layers.py:141-151 | the recursive walk ends, leaves the grey path as it was and blackens all it reaches |
| `LayerCheck.LayersRank` | tools/check_layers.py:119-132 | a graph the table accepts has no cycle: the layer is a rank |
| `LayerCheck.Run` | tools/check_layers.py:160-178 | exit 0 if and only if every component keeps the rules; every line printed is a broken rule or a loop, and every closed walk has a step some printed loop closes on |
| `LayerCheck.FaultTells` | tools/check_layers.py:101-133 | which rule a reported line speaks of, in the table's own terms |
| `Names.BeforeIs` | tools/check_layers.py:101-157 | the order names are sorted in |
| `SExpr.RoundTrip` | hardware/gen/gen_pcb.py:135-160 | parse(emit(t, d)) = t at any depth if and only if every list of several lines opens with an atom |
| `SExpr.ParseEmit` | hardware/gen/gen_pcb.py:135-160 | what comes back in every case: the tree with the opening lists of tall lists left out |
| `SExpr.EmitTokens` | hardware/gen/gen_pcb.py:148-160 | the text printed has exactly the tokens of that tree |
| `SExpr.NestedHeadIsLost` | hardware/gen/gen_pcb.py:152-157 | a tree that breaks the round trip |
| `SExpr.SameTreeStripped` | tools/check_schematic.py:43-53 | on any text the schematic checker's reader gives the generator's tree with its quotes stripped, or fails with it |
| `SExpr.ReemitText` | hardware/gen/gen_pcb.py:135-160 | any text that reads, and has no stray quote, is re-emitted without loss exactly on that condition |
| `SExpr.ReadLosesNothing` | hardware/gen/gen_pcb.py:135-145 | a text that is one balanced tree is read with every token kept |
| `SExpr.ReadIsFirst` | hardware/gen/gen_pcb.py:135-145 | any text reads as a tree if and only if no bracket closes too many and some front of its tokens balances, and the tree is the one the shortest such front spells |
| `SExpr.FoundAll` | tools/check_schematic.py:46 | findall: white space skipped, then the match at the first other character and what is found behind it |
| `SExpr.MatchIs` | tools/check_schematic.py:46 | a token ends where the pattern, as a grammar, says: a bracket, a quoted string with its escapes, or the longest word |
| `SExpr.TokenIs` | tools/check_schematic.py:46 | the atoms that stand on their own |
| `SExpr.UnquoteIs` | tools/check_schematic.py:52 | stripping takes the two quotes and nothing else |
| `SExpr.EmitDeeper` | hardware/gen/gen_pcb.py:148-160 | a list printed one level deeper is the same lines behind one more tab |
| `SExpr.Parse` | hardware/gen/gen_pcb.py:135-145 | the stack loop computes the reader those lemmas are about, errors included |
| `Codec.RecordRoundTrip` | tools/gen_contracts.py:356-450 | for every schema and every struct its C type holds, from_json(to_json(s)) is s with absent members zeroed if and only if present enums are in range and present integers exact in a double |
| `Codec.ValueRoundTrip` | tools/gen_contracts.py:371-394 | the same for one member, nested objects included |
| `Codec.LookupEncode` | tools/gen_contracts.py:370 | a name is found with what was written for it, and not found if its flag was off |
| `Codec.ToJson` | tools/gen_contracts.py:407-450 | the whole record if every allocation asked for succeeds, nothing otherwise |
| `Codec.FromJson` | tools/gen_contracts.py:356-404 | the member-by-member parse fails if and only if a member that is not skipped is required and missing or of another JSON type, is an enum with an unlisted word, or is an object that fails itself; otherwise each member is what its item says, a string cut to its buffer, a number cut towards zero, anything absent or mistyped zero and marked absent |
| `Codec.DecodeReads` | tools/gen_contracts.py:356-404 | the same of the decoder the round trip is about |
| `Codec.LookupIsFirst` | tools/gen_contracts.py:370 | an item is looked up as the first of its name |
| `Codec.TagIs` | tools/gen_contracts.py:304-319 | which kind a property is, by its type and whether it lists words |
| `Codec.StringFits` | tools/gen_contracts.py:70-78 | a string as long as the property allows fits its buffer with the terminator, to the byte |
| `Codec.PickedIsNarrowest` | tools/gen_contracts.py:53-67 | the integer picked is the narrowest unsigned one that holds both bounds |
| `Codec.CastIs` | tools/gen_contracts.py:393-394 | a number is cut towards zero |
| `Codec.ReceivedIs` | tools/gen_contracts.py:356-450 | the struct a receiver should hold: the sender's value where present, zero and unflagged where not |
| `Codec.RoundedIsNearest` | tools/gen_contracts.py:443 | (double) gives the nearest place on the grid, the even one of two |
| `Codec.ParsedHolds` | tools/gen_contracts.py:356-404 | whatever the JSON, a parse that succeeds leaves a struct its C type can hold: no string fills its buffer, every required member is there, every present enum names a word, at any depth |
| `Codec.ParseIsPerField` | tools/gen_contracts.py:364-403 | a parse decides member by member, in whatever order the items came; `DecodeReads` says how |
| `Codec.AcceptedFits` | tools/gen_contracts.py:53-67 | the C integer picked holds every 64-bit value the schema accepts |
| `Codec.EnumParse` | tools/gen_contracts.py:293-300 | the first word that matches, none if no word does |
| `Codec.RoundedIsExact` | tools/gen_contracts.py:443 | (double) keeps an integer if and only if its spacing divides it |
| `Codec.SmallIsExact` | tools/gen_contracts.py:443 | every integer up to 2^53 survives |
| `Codec.FirstInexact` | tools/gen_contracts.py:443 | 2^53 + 1 does not |
| `Outbox.Tab.Flush` | frontend/lib/outbox.ts:94-121 | its queue is all one account has waiting, oldest first and each entry once; it posts each at most once, past its owner check, stops only at an account switch or a lost answer, and exactly the answered entries leave the store |
| `Outbox.Tab.Reload` | frontend/lib/outbox.ts:56-63 | exactly the ownerless entries go and the rest is listed in filing order |
| `Outbox.Tab.Keep` | frontend/lib/outbox.ts:68-75 | stored under the account signed in, refused with nobody signed in |
| `Outbox.Tab.DropOwned` | frontend/lib/outbox.ts:78-83 | what this tab lists of one account goes, however old its list |
| `Outbox.DropLeaves` | frontend/lib/outbox.ts:78-83 | exactly the owner's entries this tab does not list survive the drop, and nobody else's is touched |
| `Outbox.DropIsWhole` | frontend/lib/outbox.ts:78-83 | the drop leaves nothing of the owner's if and only if the tab lists all that is stored of it |
| `OutboxRuns.ExactlyOnce` | frontend/lib/outbox.ts:56-121 | over every run of many tabs: no entry has two rows, a row carries its owner's ticket exactly if its post did not stray, one the server accepted has its row, and one no longer stored was accepted, refused, not heard for want of a session, agreed to be dropped or had no owner |
| `OutboxRuns.StepSound` | frontend/lib/outbox.ts:94-121 | each await of any tab, crash, switch, renewal or late request keeps that |
| `OutboxRuns.PostsAreOwners` | frontend/lib/api.ts:13-72 | every post of a run carries its owner's ticket if and only if every ticket attached after an owner check, the one after a 401 included, was of the account checked |
| `OutboxRuns.CalmRunsAreOwners` | frontend/lib/api.ts:13-72 | it is so whenever, with a request on its way, nobody else signs in to its tab and every renewal is answered from that account's cookie or none |
| `OutboxRuns.PostedIffTicket` | frontend/lib/api.ts:58-72 | an entry was ever posted if and only if some request for it found a session; only then can it have a row |
| `OutboxRuns.DropsOnWordIff` | frontend/lib/outbox.ts:106-115 | over every run, what a flush is about to drop has a row or a refusal if and only if the flush's last event was no 401 that stood |
| `OutboxRuns.GoneUnheard` | frontend/lib/outbox.ts:106-115 | an owned entry gone without its owner's drop has a row, was refused, or met a 401 that stood |
| `OutboxRuns.FlushInOrder` | frontend/lib/outbox.ts:101-106 | one flush posts one account's own entries, oldest first and all different, at every point of every run |
| `OutboxRuns.SetsOut` | frontend/lib/outbox.ts:98-101 | a flush sets out with all its tab holds of the account signed in, and nothing else |
| `OutboxRuns.WalksOn` | frontend/lib/outbox.ts:101-117 | no step of any tab makes a flush skip an entry, add one or put one off, and it ends only where the source ends it |
| `OutboxRuns.StoreMoves` | frontend/lib/outbox.ts:56-121 | the store moves only where an entry is filed, is nobody's, was agreed to be dropped, or a flush is done with it |
| `OutboxAhead.DroppedIsPostedIff` | frontend/lib/outbox.ts:78-106 | over every run, an entry dropped by agreement can still be posted by a tab's flush with the account here staying if and only if that flush has it ahead: to be checked, to be sent, or to be sent again after a 401 |
| `OutboxAhead.DroppedIsPostedEver` | frontend/lib/outbox.ts:78-106 | the same whatever the accounts do: if and only if the flush lists it and has not posted it, or may send it again |
| `OutboxCases.AnothersRow` | frontend/lib/api.ts:13-20 | a run in which a renewal answers with another account and the entry becomes its row |
| `OutboxCases.UnfiledIsDropped` | frontend/lib/outbox.ts:106-115 | a run from an empty device in which no session is found, the 401 stands and the entry leaves unposted |
| `OutboxCases.PostedIsDropped` | frontend/lib/api.ts:23-42 | a run in which only the renewal is lost: the entry, posted once, leaves with no row and no word |
| `OutboxCases.DroppedCanStillBePosted` | frontend/lib/outbox.ts:78-106 | a run in which a dropped entry is posted by a flush that had listed it |
| `OutboxCases.DroppedIsResent` | frontend/lib/api.ts:58-72 | a run in which a dropped entry is sent again after a 401 and gets its row |
| `Csv.RoundTrip` | backend/src/common/csv.ts:9-17 | a reader of section 2 of RFC 4180 recovers header and rows exactly, whatever the cells hold, if and only if none is empty |
| `Csv.Injective` | backend/src/common/csv.ts:14-17 | two files that differ in a cell are different texts |
| `Csv.ExcelRoundTrip` | backend/src/common/csv.ts:19-23 | after the mark every cell comes back unchanged exactly if it is harmless, behind one apostrophe otherwise, and none is a formula |
| `Csv.InertCollides` | backend/src/common/csv.ts:21 | when two cells come out alike |
| `Csv.InertIs` | backend/src/common/csv.ts:6-22 | exactly which cells get the apostrophe, the number pattern spelled as a grammar |

## Left out

- hug, straighten and track emission (hardware/gen/gen_pcb.py:671-693): they move copper after the search with no second look, so the clearance claims are about the searched trail.
- Float geometry of the board (discs, lines, halos, seg_gap, footprints, silkscreen): given as sets of cells or predicates.
- RouteJobs.RouteJobs: a pad without a net has the empty name.
- CopperGroups.CutFaults: one rule at a time, on any pads and pairs; the table RULE_CUTS itself is left out, and each pad id is taken to be on one bit.
- The drawing rules of check_wires.
- CMake parsing in check_layers, and the layer table itself: any table and any graph are allowed.
- LayerCheck.CheckGraph: says which problems are reported and in what order, not their wording.
- SExpr.RoundTrip: atoms are the tokens the pattern takes on their own; a stray opening quote, whose reading depends on what follows, is not one of them.
- Codec.RecordRoundTrip: about cJSON trees; printing and parsing JSON text is the library's. Names that differ in the schema are taken to differ in C.
- Codec.ToJson: which allocations a call makes is the model's count of one for each cJSON call, not cJSON's own.
- Outbox.Tab.Flush: one tab alone on the device, and no ticket; what several tabs do to one another, and the ticket a post carries, is in OutboxRuns. Hooks, timers and the retry moments are left out.
- PendingList.Pending.Offer: the page asked for is not negative. 
- CommandRing.Ring.TakeAll: the expiry test after the ring, and running the command, are left out.
- WavWalk.PcmOf: files up to the sound cap, which is all the caller reads; on it size_t and 32-bit sums cannot wrap.
- Roster.Kiosk.TakeRoster: notes, faults and the screen are left out; the pending list is a map there (its array is in PendingList).
- svc_facedb's own storage, NVS, LittleFS, MQTT, FreeRTOS, cJSON and IndexedDB: abstract steps that may fail.
- Firmware OTA, ticket renewal, backoff, touch, range-sensor and audio loops: timing, or one loop with an easy claim.
- Model training and quantisation (`ml/`), React components, the NestJS wiring, the payroll and the pattern linters.
