# A model of the lighting controller

A home lighting server keeps devices, rooms, zones, groups, schedules, quick actions and scenes in a
relational store, backs them up and restores them, signs users in with passkeys, commands many bulbs at
once, and executes schedules from a periodic check. This project models those parts in Dafny and proves
what they promise.

* **Backup and restore.** `Stores` has the rows, `Envelopes` the backup as it arrives. `Hierarchy`, `Tables`
  and `Backups` say, as functions, what an import computes: entries are taken in document order, rooms, zones
  and groups are matched by name, schedules, quick actions and scenes by id, and every stored target is
  rewritten through one merged remap. `Databases` and `ItemImports` are the imperative form: a session whose
  tables the services update in loops, proved to compute exactly those functions and to commit all of the
  import or nothing. An export is a relation (`Exports.IsExport`), because most of its lists have no fixed
  order; `Queries` has the loops that build one. The theorems: `ImportPlans` and `RestoreOutcomes` (how the
  import of any envelope ends, and which rows it uses), `RestoreFacts` and `HierarchyRows` (what it leaves),
  `MergeAgain` (merging twice), `RestoreExport` and `RoundTrip` (restoring an export, here or elsewhere),
  `MergeSuccess` (exactly when one installation's export merges into another), `Meaning` and `MergeMeaning`
  (what the restored targets address, after a replace and after a merge into another installation),
  `Witnesses` (small stores on which conditions fail or hold), `Views` (the hierarchy view as a partition).
* **Passkeys.** `Passkeys` is the ceremony state machine: registration, authentication, revocation, clean-up
  and the passing of time, with the authenticator's verified answer as an oracle. `PasskeyOutcomes` says what
  each request comes to, `PasskeyRuns` has the theorems over whole runs, and `PasskeyService` the routes,
  proved to take exactly those steps. The protocol is W3C Web Authentication Level 2: section 6.1.1
  (signature counter), section 7.1 (registration) and section 7.2 (assertion).
* **Fan-out, ticks, dispatch.** `FanOut` is bulk control under every interleaving of its bounded-concurrency
  commands. `Ticks` is the arithmetic of the periodic checks and the two check loops. `Dispatch` translates a
  payload into a command and says which device receives which.
* **Colours and payloads.** `StateValidator`, `Colours` and `ColorClamp` are the backend's validator, the
  near-black clamp of both sides, and the frontend's hex colours.

## Results that differ from what one might expect

* A restored target keeps its meaning exactly when a checkable condition on the two stores and the target
  holds (`Meaning.Keeps`). For a store whose devices are exported where they are, and whose device ids are
  apart from room, zone and group ids, it reads: a backup device that is missing here must not lend its id to
  a local device, and a room, zone or group target must not name a device (`Meaning.KeepsIsSafe`). Neither
  condition on the store can be dropped, because a misplaced device changes what a target means
  (`Meaning.MisplacedDevice`), and because all ids share one remap (`Meaning.SharedId`,
  `Meaning.SharedExclude`). `Witnesses` has small stores on which targets change their meaning.
* A room, zone or group without an id is imported under a drawn one (`Witnesses.GhostRoomIsImported`); any
  envelope is imported exactly as `ImportPlans.ImportsIffPlanned` and `RestoreOutcomes.RestoreEnds` say.
* A merge into another installation fails exactly when a quick action has no target, when a room, zone or
  group finds several local rows of its name, or when it finds none, brought by no earlier entry either, and
  its id is taken here by a row of another name (`MergeSuccess.MergeSucceedsIff`,
  `MergeSuccess.MergeSucceedsIffCompatible`).
* After a merge into another installation a room or zone target addresses, besides the devices it did, those
  that the backup places nowhere and that already were in the row of that name
  (`MergeMeaning.MergedTargetOfSound`).
* Merging a store's own export fails when a room has two zones of one name (`RestoreExport.MergeOwnExport`,
  `Witnesses.TwinZonesDoNotMerge`), and a merge is idempotent exactly when every schedule, quick action and
  scene of the backup carries an id (`MergeAgain.MergeTwiceIsMergeOnce`).
* A schedule that turns off several devices turns off the first and on the others: the engine hands one
  dictionary to a callee that pops `turn_off` (`Dispatch.AllAlikeIff`, `Dispatch.SecondDeviceTurnsOn`).
* On an exact 30 s beat a cron firing is executed twice when a tick follows it by less than 5 s
  (`Ticks.MatchedTwiceOnTheBeat`).
* Backend and frontend clamp the same near-black colour differently exactly at peak 16 with a channel of 3,
  7, 11 or 15 (`Colours.ClampsDifferIff`), and the frontend reads some malformed hex colours
  (`ColorClamp.ReadIff`), although a test is titled "throws on malformed hex"; the strings it uses have the
  wrong length, and those are refused here too.

## Model

| member | source | states |
|---|---|---|
| Envelopes.ParseTriggerType | src/lighting_control/schedules/service.py:127-128 | a trigger type is read from its value and from no other text |
| Envelopes.ParseTargetType | src/lighting_control/schedules/service.py:142 | a target type is read from its value and from no other text |
| Hierarchy.RowForKeepsKeys | src/lighting_control/devices/service.py:266-279 | the row chosen for an entry: no other row is renamed, unique names stay unique, a merge leaves one row of that name, a replace never reuses a row |
| Hierarchy.RunExtends | src/lighting_control/devices/service.py:265-335 | no entry of an import deletes or renames a row or forgets a placement |
| Hierarchy.RunFailure | src/lighting_control/backup/router.py:21-28 | an import fails with the error of its first failing entry, whatever follows |
| HierarchyFacts.RunKeepsUnique | src/lighting_control/devices/models.py:9-39 | room names and group names stay unique through any import |
| ImportPlans.RowForIs | src/lighting_control/devices/service.py:266-279 | the row choice by the rows that have the name: in a merge the one there is; else a row under the id the entry brings, or the one drawn for it, if that is free and a unique name is |
| ImportPlans.ImportsIffPlanned | src/lighting_control/devices/service.py:242-335 | for any envelope and either mode, with ids or without: the import succeeds with exactly the rows of the plan that names and ids allow, and there is no other plan |
| ImportPlans.ImportsIffSomePlan | src/lighting_control/devices/service.py:242-335 | the hierarchy import succeeds exactly when there is such a plan |
| HierarchyFacts.RowOfNames | src/lighting_control/devices/service.py:265-333 | at the end of the import each entry's row has its kind and name, and a zone's row lies in the row of the room it is listed under |
| HierarchyFacts.RemapFollowsLast | src/lighting_control/devices/service.py:280-281 | a backup id is remapped to the row of the last entry that carries it |
| HierarchyFacts.RemapComesFromDocument | src/lighting_control/devices/service.py:264-335 | no other ids are remapped |
| HierarchyFacts.LastMentionWins | src/lighting_control/devices/service.py:282-308 | a device ends in the room and zone of its last mention in document order |
| HierarchyFacts.UnmentionedStays | src/lighting_control/devices/service.py:282-308 | a device that is not mentioned is not moved |
| HierarchyFacts.MentionsAreSound | src/lighting_control/devices/service.py:282-308 | every placement names an existing room and a zone of that room |
| HierarchyRows.WrittenByEntry | src/lighting_control/devices/service.py:264-333 | each row written by an import holds the name, icon, order and members that the last entry stored in it asks for |
| HierarchyRows.ZoneInItsRoom | src/lighting_control/devices/service.py:288-301 | a zone entry's row ends in the row of the very room entry it is listed under |
| HierarchyRerun.SecondRun | src/lighting_control/devices/service.py:242-335 | merging the same hierarchy again finds the same rows and computes the same remap and placements |
| Tables.LoadIsFaithful | src/lighting_control/schedules/service.py:101-145 | created and updated add up to the items, a replace only creates, every item has its row, and each written row holds the content of the last item stored in it |
| Tables.CreatorsAreKept | src/lighting_control/schedules/service.py:107-125 | an updated row keeps its creator and a created one is the importing user's, whatever the items |
| Tables.CreatedIsNew | src/lighting_control/scenes/service.py:58-82 | the created count is the number of new rows |
| Tables.LastItemDecides | src/lighting_control/schedules/service.py:103-143 | of several items with one id the last decides the row's content |
| Tables.ReplaceKeepsEachItem | src/lighting_control/quick_actions/service.py:75-116 | after a replace there is one row for each item |
| Tables.LoadAgain | src/lighting_control/schedules/service.py:103-145 | merging items with ids a second time updates every row to itself |
| Tables.NoIdAddsRow | src/lighting_control/scenes/service.py:61-80 | merging an item without an id always changes the table |
| Tables.LoadFailure | src/lighting_control/quick_actions/service.py:82-84 | a table import fails with the error of its first failing item |
| Tables.LoadClean | src/lighting_control/schedules/service.py:94-145 | items with distinct ids and valid content always load: the rows written are theirs, updated rows keep their creator |
| RestoreOutcomes.TypesByName | src/lighting_control/schedules/models.py:8-24 | the enumerations by their texts |
| RestoreOutcomes.TriggersRead | src/lighting_control/schedules/service.py:127-134 | triggers are read unless one has no type or an unknown one; the first fault decides |
| RestoreOutcomes.TargetsRead | src/lighting_control/schedules/service.py:135-143 | targets are read unless one has no type, an unknown one or no state; the first fault decides |
| RestoreOutcomes.LoadEnds | src/lighting_control/quick_actions/service.py:80-116 | items with and without ids load exactly when none is at fault or collides, and fail with the first fault |
| RestoreOutcomes.RestoreEnds | src/lighting_control/backup/service.py:27-52 | how the import of any envelope ends: refused for its version, failed for want of a plan, or else a success exactly when no item is at fault and a failure with the first fault otherwise |
| RestoreFacts.DevicesArePhysical | src/lighting_control/devices/service.py:206-222 | a restore never creates, deletes or re-identifies a device |
| RestoreFacts.DevicesAreRenamed | src/lighting_control/devices/service.py:206-222 | a device gets the name of the last item that names it, and keeps its own when none does |
| RestoreFacts.MergeDeletesNothing | src/lighting_control/backup/service.py:27-52 | a merge deletes no row of any table and renames no room, zone or group |
| RestoreFacts.ReportAddsUp | src/lighting_control/backup/service.py:46-52 | the report counts the backup ids of devices known here, those of the hierarchy, and in each table the new rows and the updating items |
| RestoreFacts.ReplaceLeavesTheBackup | src/lighting_control/schedules/service.py:96-100 | after a replace there are as many schedules, quick actions and scenes as items; each item has its row, and each row holds the content of the last item stored in it |
| RestoreFacts.ReplaceLeavesTheHierarchy | src/lighting_control/devices/service.py:244-261 | after a replace there is one room, zone or group row for each entry, and each row has the name, icon, order and members that its entry asks for |
| RestoreFacts.HierarchyIsRestored | src/lighting_control/devices/service.py:264-335 | after any restore each entry has its row, and each row holds what the last entry stored in it asks for, or is a row that a merge left as it was because no entry went to it |
| RestoreFacts.ReplaceIsCoherent | src/lighting_control/devices/service.py:244-308 | after a replace every placement exists and every zoned device is in its zone's room |
| RestoreFacts.RestoredPlacement | src/lighting_control/devices/service.py:257-308 | each device ends where its last mention says; an unmentioned one keeps its place in a merge and has none after a replace |
| RestoreFacts.RemapIsComplete | src/lighting_control/backup/service.py:30-44 | every backup id goes to the row of the last entry that carries it, with that entry's kind and name; failing that to the local device with the MAC of the last item that lists it; other ids are left alone |
| RestoreFacts.NamedRowsExist | src/lighting_control/backup/service.py:30-44 | the rows remapped to exist in the restored store, with their names and a zone's room |
| RestoreFacts.SchedulesAreSubstituted | src/lighting_control/schedules/service.py:101-145 | after any restore each item has its row, and each schedule holds the fields, triggers and targets of the last item stored in it, every target id replaced once by the merged remap, or is a row that a merge left as it was; items without an id included |
| RestoreFacts.ActionsAreSubstituted | src/lighting_control/quick_actions/service.py:80-116 | the same for quick actions, none of which is stored without targets |
| RestoreFacts.ScenesAreRestored | src/lighting_control/scenes/service.py:52-82 | the same for scenes |
| RestoreFacts.RestoreKeepsValid | src/lighting_control/devices/models.py:9-68 | a restore keeps primary keys proper and MACs, room names and group names unique |
| MergeAgain.MergeTwiceIsMergeOnce | src/lighting_control/backup/service.py:27-52 | merging a backup a second time succeeds and changes nothing exactly when its schedules, quick actions and scenes all carry ids |
| RestoreExport.ReplaceWithExport | src/lighting_control/backup/service.py:11-52 | an export of any valid store restores over any other in replace mode exactly when its quick actions all have targets, and gives the mirror of the exported store |
| RestoreExport.MergeOwnExport | src/lighting_control/devices/service.py:289-291 | merging a store's own export succeeds exactly when, besides, no room has two zones of one name |
| MergeSuccess.RowForEnters | src/lighting_control/devices/service.py:266-279 | in a merge of an export the row choice fails exactly when several local rows have the name, or when none has, no earlier entry brought it, and the id is taken here |
| MergeSuccess.RunEnters | src/lighting_control/devices/service.py:242-335 | the hierarchy of an export is merged into any store exactly when each of its entries enters in that sense |
| MergeSuccess.MergeSucceedsIff | src/lighting_control/backup/service.py:27-52 | merging an export of any valid store into any other succeeds exactly when every quick action has a target and every entry of the hierarchy enters |
| MergeSuccess.MergeSucceedsIffCompatible | src/lighting_control/devices/models.py:9-39 | when zone names are unique in each room, the condition on the two stores alone: each room, zone and group finds at most one local row of its name and, failing that, its id free |
| MergeSuccess.RowIsSeat | src/lighting_control/devices/service.py:266-301 | the row an exported room, zone or group goes to: the local row of its name, a zone within the row of its room, or one under its own id |
| RoundTrip.ReplaceRoundTrip | src/lighting_control/backup/service.py:11-52 | after a store is replaced by its own export, what can be exported is exactly what could be exported before |
| RoundTrip.MergeRoundTrip | src/lighting_control/backup/service.py:11-52 | merging a store's own export is likewise invisible in every later export |
| Meaning.WellPlacedIsCoherent | src/lighting_control/devices/service.py:228-234 | every device is exported where it is exactly when its room and zone exist and a zoned device is in its zone's room |
| Meaning.TargetMeaning | src/lighting_control/devices/service.py:338-358 | for any two valid stores, a target addresses after a replace the devices it ought to exactly when the condition Keeps holds |
| Meaning.StoredTargetsPreserved | src/lighting_control/backup/service.py:27-52 | after an export of any valid store replaces another installation, each target of each schedule and quick action keeps its meaning exactly when Keeps holds of it |
| Meaning.KeepsIsSafe | src/lighting_control/backup/service.py:30-44 | for a store with well placed devices and ids apart, that condition is: no missing device lends its id, and no room, zone or group target names a device |
| Meaning.MisplacedDevice | src/lighting_control/devices/service.py:231-234 | any device known on the other side that is not exported in the room and zone it names makes some room or zone target change its meaning |
| Meaning.SharedId | src/lighting_control/backup/service.py:37-41 | what a device target means after a restore when its id is also a room, zone or group id |
| Meaning.SharedExclude | src/lighting_control/backup/service.py:37-41 | what excluding a device means after a restore when its id is also a room, zone or group id |
| MergeMeaning.MergedTarget | src/lighting_control/devices/service.py:242-335 | what a room, zone or group target addresses after an export of one installation is merged into another: the devices that end in the row it now names, member by member |
| MergeMeaning.MergedRow | src/lighting_control/backup/service.py:30-44 | after such a merge the remap sends an exported room, zone or group id to that row |
| MergeMeaning.MergedTargetOfSound | src/lighting_control/devices/service.py:338-358 | for a sound exported store: the devices it addressed that are here, and for a room or zone those not in the backup that were already in that row |
| MergeMeaning.MergedDeviceTarget | src/lighting_control/backup/service.py:30-44 | after such a merge a device, all or all_except target keeps its meaning exactly when it does after a replace |
| MergeMeaning.MergedStoredTargets | src/lighting_control/backup/service.py:42-44 | every exported schedule and quick action is there after such a merge, its targets rewritten by the remap |
| Witnesses.LentId | src/lighting_control/backup/service.py:30-44 | two one-device installations with one id for different devices: a target on it changes its meaning |
| Witnesses.DanglingZone | src/lighting_control/devices/service.py:225-234 | a device in a zone that does not exist: a target on that zone loses it even on the same store |
| Witnesses.TwinZonesDoNotMerge | src/lighting_control/devices/service.py:289-293 | a valid store with two zones of one name in a room, whose own export cannot be merged back |
| Witnesses.HallsMeet | src/lighting_control/devices/service.py:266-281 | two homes with one hall under different ids: the merge succeeds and remaps the room |
| Witnesses.GhostRoomIsImported | tests/unit/test_device_service.py:194-199 | a room without an id, listing an unknown device, is created under the id drawn for it |
| Databases.Database.AssignDevice | src/lighting_control/devices/service.py:74-80 | the device, if there is one, gets the room and zone, and nothing else changes |
| Databases.Database.ImportDevices | src/lighting_control/devices/service.py:206-222 | devices are renamed by MAC and nothing else, and the remap is that of the items |
| Databases.Database.DeleteZone | src/lighting_control/devices/service.py:145-151 | the zone goes and its devices leave it |
| Databases.Database.DeleteRoom | src/lighting_control/devices/service.py:109-115 | the room and its zones go and their devices leave both |
| Databases.Database.UpdateGroup | src/lighting_control/devices/service.py:175-188 | name, icon and members are replaced, unless the name is taken or a device is listed twice |
| Databases.Database.WipeHierarchy | src/lighting_control/devices/service.py:244-261 | no group, zone or room is left and no device is placed |
| Databases.Database.ImportRoom | src/lighting_control/devices/service.py:266-279 | one room entry is updated, inserted or refused as the row choice says |
| Databases.Database.ImportZone | src/lighting_control/devices/service.py:288-308 | one zone entry, within the current room, and its devices |
| Databases.Database.ImportGroup | src/lighting_control/devices/service.py:310-333 | one group entry, whose members replace those it had |
| Databases.Database.ImportHierarchy | src/lighting_control/devices/service.py:242-335 | the nested loops compute the run over the flattened document: its rows, placements and remap, or its error |
| Databases.Database.Rollback | src/lighting_control/backup/router.py:23-28 | the session returns to what was committed |
| ItemImports.BuildTriggers | src/lighting_control/schedules/service.py:127-134 | the trigger loop builds the item's triggers or raises the error of the first bad one |
| ItemImports.BuildTarget | src/lighting_control/schedules/service.py:136-142 | one target: its id and its excludes each replaced through the remap where they are found there |
| ItemImports.BuildTargets | src/lighting_control/schedules/service.py:135-143 | the target loop builds the remapped targets or raises the error of the first bad one |
| ItemImports.ImportSchedules | src/lighting_control/schedules/service.py:94-145 | the loop loads the schedules table as specified, or fails as specified |
| ItemImports.ImportQuickActions | src/lighting_control/quick_actions/service.py:73-116 | the loop loads the quick actions table as specified, or fails as specified |
| ItemImports.ImportScenes | src/lighting_control/scenes/service.py:52-82 | the loop loads the scenes table as specified, or fails as specified |
| ItemImports.ImportAll | src/lighting_control/backup/service.py:27-52 | the phases in their order compute the restore and its report, or its error |
| ItemImports.ImportBackup | src/lighting_control/backup/router.py:18-30 | a restore is committed whole, or the store is what it was: 400 for a wrong version, a quick action without targets or an unknown type, a server error otherwise |
| Queries.ExportDeviceList | src/lighting_control/devices/service.py:200-203 | every device is listed once with its id, MAC and name |
| Queries.ExportRoomList | src/lighting_control/devices/service.py:225-234 | every room is listed once in order, with its zones in order, and each device where the export shows it |
| Queries.ExportGroupList | src/lighting_control/devices/service.py:235-239 | every group is listed once with the MACs of its existing members |
| Queries.ExportScheduleList | src/lighting_control/schedules/service.py:83-91 | every schedule is listed once by descending priority with all it holds |
| Queries.ExportActionList | src/lighting_control/quick_actions/service.py:63-70 | every quick action is listed once in order with all it holds |
| Queries.ExportSceneList | src/lighting_control/scenes/service.py:46-49 | every scene is listed once with all it holds |
| Queries.ExportAll | src/lighting_control/backup/service.py:11-24 | the composed envelope is an export of the store |
| Queries.ResolveDeviceIds | src/lighting_control/devices/service.py:338-358 | the ids listed are exactly those the target stands for |
| Queries.ResolvedIff | src/lighting_control/devices/service.py:338-358 | what each kind of target stands for, ids of missing devices and missing ids included |
| Views.GetHierarchy | src/lighting_control/devices/router.py:27-49 | the nested loops build a hierarchy view, its rooms in their order |
| Views.LostIff | src/lighting_control/devices/router.py:30-49 | which devices no list shows: those with a room that exists and a zone in no room that does |
| Views.ViewShowsEachOnce | src/lighting_control/devices/router.py:30-49 | a view lists every device exactly once, but for those in an existing room whose zone is in no listed room |
| Views.PartitionIffNoneLost | src/lighting_control/devices/router.py:30-49 | the view is a partition of the devices exactly when no device is lost in that way |
| Views.ZoneDeletionKeepsPartition | src/lighting_control/devices/service.py:145-151 | deleting a zone keeps the partition |
| Views.RoomDeletionKeepsPartition | src/lighting_control/devices/service.py:109-115 | deleting a room with its zones keeps the partition |
| Views.AssignmentKeepsPartition | src/lighting_control/devices/service.py:74-80 | assigning a device keeps the partition exactly when its zone is listed, or it has none, or its room does not exist |
| Views.ReplaceMakesPartition | src/lighting_control/devices/service.py:242-308 | after a replace the view is a partition whatever the store was |
| PasskeyOutcomes.SignInIff | src/lighting_control/auth/passkeys.py:260-328 | exactly when a sign-in succeeds: live challenge, active key of the owner, verified answer, a count that moves forward or stays 0 or belongs to a multi-device key, and for a touch-only key the password first |
| PasskeyOutcomes.SignInUpdates | src/lighting_control/auth/passkeys.py:324-328 | it stores the count and the time, uses up the challenge and changes nothing else |
| PasskeyOutcomes.SignInRefusedEarly | src/lighting_control/auth/router.py:397-425 | the answers to a wrong cookie, to a missing, wrong or expired challenge and to a malformed credential |
| PasskeyOutcomes.UnknownKeyIsRefused | src/lighting_control/auth/passkeys.py:285-289 | a credential that is no active key's is answered as unknown |
| PasskeyOutcomes.UnverifiedIsRefused | src/lighting_control/auth/passkeys.py:290-302 | an answer that does not verify is refused and leaves the key alone |
| PasskeyOutcomes.BackwardCountIsRefused | src/lighting_control/auth/passkeys.py:303-319 | a count that does not move forward: a warning, or within a day of one the end of the key, with the answer to each |
| PasskeyOutcomes.TouchOnlyIsRefused | src/lighting_control/auth/passkeys.py:320-324 | a touch-only key without its owner's password is refused, with the answer to each case |
| PasskeyOutcomes.RegistrationIff | src/lighting_control/auth/passkeys.py:165-230 | exactly when a registration succeeds: live challenge of the same user, verified response, new credential |
| PasskeyOutcomes.RegistrationRefused | src/lighting_control/auth/router.py:37-53 | the answer to each registration that does not |
| PasskeyOutcomes.SignInWithinTwoMinutes | src/lighting_control/auth/passkeys.py:75-104 | a started sign-in can be finished for 120 seconds and no longer |
| PasskeyOutcomes.RegisterWithinTwoMinutes | src/lighting_control/auth/passkeys.py:75-104 | so can a started registration |
| PasskeyOutcomes.RegistrationExcludesOwn | src/lighting_control/auth/passkeys.py:112-135 | a registration offers exactly the user's own active credentials for exclusion |
| PasskeyOutcomes.SignInOffers | src/lighting_control/auth/passkeys.py:233-257 | without a name nothing is listed; with one, exactly its account's active credentials, or fakes |
| PasskeyOutcomes.RevokeIff | src/lighting_control/auth/passkeys.py:350-357 | a key is revoked exactly by its own user while active, and nothing else changes |
| PasskeyOutcomes.CleanupKeepsLiveOnes | src/lighting_control/auth/passkeys.py:331-338 | a clean-up keeps exactly the challenges that can still be answered |
| PasskeyRuns.CredentialsStayUnique | src/lighting_control/auth/passkeys.py:194-196 | in every reachable state no two keys, revoked ones included, share a credential id |
| PasskeyRuns.KeyEndures | src/lighting_control/auth/passkeys.py:194-229 | no run deletes a key or changes its owner, credential, kind or, once revoked, anything about it |
| PasskeyRuns.RevocationIsFinal | src/lighting_control/auth/passkeys.py:288-289 | a revoked key stays exactly as it was and never signs anyone in again |
| PasskeyRuns.SignInNeedsOwner | src/lighting_control/auth/passkeys.py:268-328 | whoever signs in has the owner's active key, a live challenge of the right kind, and for a touch-only key the password step of the same owner |
| PasskeyRuns.CounterDiscipline | src/lighting_control/auth/passkeys.py:303-327 | over any run, the counts of a single-device key are a block of zeros and then strictly increase, and the stored count is the last of them |
| PasskeyRuns.StoredCountNeverDecreases | src/lighting_control/auth/passkeys.py:303-327 | the stored count of a single-device key never decreases, whatever mix of events comes |
| PasskeyRuns.WarningsADayApart | src/lighting_control/auth/passkeys.py:304-319 | over any run, any two warnings of a key are at least 24 hours apart, and its stamp is the latest of them |
| PasskeyRuns.TwoStrikes | src/lighting_control/auth/passkeys.py:304-319 | a regression revokes its key exactly when it comes less than 24 hours after one of the key's warnings, and is a warning otherwise |
| PasskeyRuns.CounterRevokesOnSecondStrike | src/lighting_control/auth/passkeys.py:310-314 | the counter revokes a key for no other reason |
| PasskeyRuns.SuccessFollowsItsStart | src/lighting_control/auth/passkeys.py:165-182 | in every run a finish succeeds only within 120 s of the start of its own ceremony, of the same kind and, for a registration, by the same user |
| PasskeyRuns.ConsumedStaysConsumed | src/lighting_control/auth/passkeys.py:75-82 | a deleted challenge never comes back |
| PasskeyRuns.OneChallengeOneAnswer | src/lighting_control/auth/router.py:365-371 | once a finish request has reached its challenge, even in vain, no later one on that session succeeds |
| PasskeyRuns.AtMostOneSuccess | src/lighting_control/auth/router.py:414-418 | in every run each session id has at most one successful finish |
| PasskeyRuns.UpgradeSupersedes | src/lighting_control/auth/passkeys.py:201-212 | right after a user-verified registration the user has no active touch-only key of the same AAGUID |
| PasskeyRuns.MultiDeviceIff | src/lighting_control/auth/passkeys.py:150-154 | a key is a multi-device key exactly when five consecutive characters of its attested type read "multi" in whatever case |
| PasskeyRuns.AttestedTypes | tests/unit/test_passkey_service.py:44-51 | "multi_device" is, "single_device" is not |
| PasskeyRuns.RegistrationAddsOne | src/lighting_control/auth/passkeys.py:194-230 | a registration adds one active key with a new credential id and the attested count, model and device type, touch-only exactly as derived, and touches no other key but the touch-only siblings it supersedes |
| PasskeyRuns.OfferIsExact | src/lighting_control/auth/passkeys.py:243-249 | signing in by name offers exactly the account's active credentials, and only fakes when there are none or no such account |
| PasskeyRuns.CleanupIsInvisible | src/lighting_control/auth/passkeys.py:331-338 | whatever clean-ups a run holds, and wherever, every other request gets the response it gets in the run without them |
| PasskeyService.Session.RegisterStart | src/lighting_control/auth/router.py:351-357 | the route takes exactly the protocol's step and leaves nothing pending |
| PasskeyService.Session.RegisterFinish | src/lighting_control/auth/router.py:360-373 | the route takes exactly the protocol's step: committed on success and on refusal, rolled back on a crash |
| PasskeyService.Session.FinishRegister | src/lighting_control/auth/passkeys.py:165-230 | the checks in their order, the upgrade and the insertion are those of the protocol |
| PasskeyService.Session.RevokeSiblings | src/lighting_control/auth/passkeys.py:201-212 | the loop revokes exactly the superseded keys |
| PasskeyService.Session.AuthenticateStart | src/lighting_control/auth/passkeys.py:233-257 | the route takes exactly the protocol's step |
| PasskeyService.Session.AuthenticateFinish | src/lighting_control/auth/router.py:397-425 | the route takes exactly the protocol's step, committed on refusal too |
| PasskeyService.Session.FinishAuthenticate | src/lighting_control/auth/passkeys.py:260-328 | the checks in their order are those of the protocol |
| PasskeyService.Session.TakeAnswer | src/lighting_control/auth/passkeys.py:303-328 | the counter check, the touch-only rule and the update are those of the protocol |
| PasskeyService.Session.SoftRevoke | src/lighting_control/auth/passkeys.py:350-357 | exactly the caller's own active key is revoked |
| PasskeyService.Session.CleanupExpired | src/lighting_control/auth/passkeys.py:331-338 | exactly the expired challenges are deleted and counted |
| FanOut.EveryInterleavingIsSound | src/lighting_control/devices/router.py:68-75 | under every interleaving permits and commands in flight add up to 32, a finished command has its own answer, and each move brings the end nearer |
| FanOut.NeverStuck | src/lighting_control/devices/router.py:68-75 | some move is possible until all commands have finished |
| FanOut.GatheredInOrder | src/lighting_control/devices/router.py:75 | a run that can go no further has made two moves for each command, and the gathered answers are in the order of the list |
| FanOut.OneCommandEach | src/lighting_control/devices/router.py:69-75 | each listed device is commanded and answered exactly once |
| FanOut.ExistingAreListed | src/lighting_control/devices/router.py:63-67 | the devices commanded are exactly the listed ids that exist, as often as listed and in order |
| FanOut.EveryIdIsReported | src/lighting_control/devices/router.py:76-87 | successes and failures add up to the existing ids, counted as often as they are listed |
| FanOut.FailuresAreExact | src/lighting_control/devices/router.py:78-82 | the failures reported are exactly those of the existing devices that raised or did not respond, with their messages |
| FanOut.FailuresInOrder | src/lighting_control/devices/router.py:76-87 | the failures are reported in the order of the list, each as often as it happens |
| FanOut.LastReplyStays | src/lighting_control/devices/router.py:84-85 | every device shows its last reply, and one that never replied is as it was |
| FanOut.CollectIsOneAtATime | src/lighting_control/devices/router.py:63-87 | looking up first and recording last comes to the same as one device at a time |
| FanOut.Gather | src/lighting_control/devices/router.py:68-75 | an arbitrary schedule of the commands ends, with the answers in order |
| FanOut.Panel.UpdateState | src/lighting_control/devices/service.py:57-63 | a known device shows the state and is online |
| FanOut.Panel.BulkControl | src/lighting_control/devices/router.py:52-87 | whatever the schedule, store and report are those of the one-at-a-time loop; a request with both or neither selection is refused |
| Ticks.NothingMissed | src/lighting_control/tasks/scheduling.py:42 | no instant between the first and the last tick is missed exactly when every gap is shorter than the window |
| Ticks.SeenAtMostTwice | src/lighting_control/tasks/scheduling.py:42 | no instant is seen three times exactly when any two gaps in a row come to the window less a microsecond |
| Ticks.MatchesIffRecent | src/lighting_control/tasks/scheduling.py:40-42 | a tick matches exactly when there was a firing in the 35 s before it, however dense the firings |
| Ticks.EveryFiringMatched | src/lighting_control/tasks/scheduling.py:30-47 | with ticks 17.5 s to under 35 s apart and firings 35 s apart, every firing is matched by one tick or by two neighbouring ones |
| Ticks.MatchedTwiceOnTheBeat | src/lighting_control/tasks/celery_app.py:13 | on an exact 30 s beat a firing is matched twice exactly when a tick follows it by less than 5 s |
| Ticks.EverySunTargetMatched | src/lighting_control/tasks/scheduling.py:75-92 | with ticks 1830 s to under 3660 s apart, a fixed target is matched by one tick or by two neighbouring ones |
| Ticks.TrySchedule | src/lighting_control/tasks/scheduling.py:36-47 | the due triggers of one schedule are tried in order until one succeeds |
| Ticks.CheckCron | src/lighting_control/tasks/scheduling.py:24-48 | the loops try exactly the due triggers, in order, that no earlier success of their schedule makes unnecessary |
| Ticks.OneSuccessPerTick | src/lighting_control/tasks/scheduling.py:36-47 | in one tick a schedule succeeds at most once, and it does exactly when one of its due triggers can |
| Ticks.LogIsOfFirings | src/lighting_control/tasks/scheduling.py:30-47 | a tick tries exactly the cron triggers that have fired in the 35 seconds before, in order, up to the first success of each schedule |
| Ticks.AttemptsApartAreOfTwoFirings | src/lighting_control/tasks/celery_app.py:13 | with ticks 17.5 s apart, attempts on one trigger in ticks that are not neighbours come of two different firings |
| Ticks.FiringIsDue | src/lighting_control/tasks/scheduling.py:40-42 | a firing between two ticks of a run without long gaps finds its trigger due at some tick |
| Ticks.FiringIsExecuted | src/lighting_control/tasks/scheduling.py:30-47 | such a firing leaves a successful execution of its schedule in the log of one of the ticks, when executing it succeeds |
| Ticks.CheckSun | src/lighting_control/tasks/scheduling.py:57-93 | the loops execute each enabled schedule at most once, on its first due trigger, until one fails; then nothing is committed |
| Ticks.SunLogIsOfEvents | src/lighting_control/tasks/scheduling.py:75-92 | a sun tick tries each schedule on its first trigger within 1830 s of its own event shifted by its offset, in order, until one fails |
| Dispatch.TranslateStateToPilotArgs | src/lighting_control/devices/discovery.py:53-77 | the pilot arguments, filled in one after another, are those of the translation |
| Dispatch.BrightnessIncreases | src/lighting_control/devices/discovery.py:56-57 | over percentages brightness runs from 0 to 255 and strictly increases |
| Dispatch.BrightnessIsRoundedDown | src/lighting_control/devices/discovery.py:56-57 | brightness is the exact share of 255, rounded down |
| Dispatch.LevelsAreNumbers | src/lighting_control/devices/discovery.py:56-60 | a payload fails to translate exactly when a level is no number; booleans are 0 and 1 |
| Dispatch.ColortempHasTheLastWord | src/lighting_control/devices/discovery.py:61-64 | colortemp has the last word over temp |
| Dispatch.BrightnessHasTheLastWord | src/lighting_control/devices/discovery.py:56-60 | brightness has the last word over dimming |
| Dispatch.SceneIdHasTheLastWord | src/lighting_control/devices/discovery.py:65-66 | sceneId has the last word over scene if it counts as true, and none otherwise |
| Dispatch.HandedOn | src/lighting_control/devices/discovery.py:69-76 | w, c, speed and state are handed on, each to its own argument |
| Dispatch.ValidatedPilotIsWellFormed | src/lighting_control/devices/discovery.py:53-77 | a validated payload translates to at most one mode, and a level from 0 to 255 |
| Dispatch.TranslationIsInjective | src/lighting_control/devices/discovery.py:53-77 | different normal forms give different pilot arguments |
| Dispatch.ControlDevice | src/lighting_control/devices/discovery.py:80-92 | the command of the payload is sent, and turn_off is popped from the caller's dictionary |
| Dispatch.TurnsOffIff | src/lighting_control/devices/discovery.py:80-92 | a payload turns off exactly when its turn_off counts as true; a false one is dropped |
| Dispatch.ExecuteTarget | src/lighting_control/schedules/engine.py:14-24 | a schedule's devices are commanded in turn from one shared dictionary: exactly the listed ids that exist, in order, and which command each receives |
| Dispatch.ExecuteActionTarget | src/lighting_control/quick_actions/router.py:68-80 | exactly the listed ids that exist, in order, receive the command of the quick action's validated payload |
| Dispatch.CommandsPerDevice | src/lighting_control/schedules/engine.py:14-24 | a device that exists receives as many commands as it is listed, an id that does not exist none |
| Dispatch.AllAlikeIff | src/lighting_control/schedules/engine.py:19 | a schedule's devices all receive the command it asks for exactly when it does not turn off or has at most one device |
| Dispatch.SecondDeviceTurnsOn | src/lighting_control/schedules/engine.py:19 | turning off two devices turns one off and the other on |
| Colours.ClampsAreFaithful | src/lighting_control/devices/state_validator.py:50-56 | both clamps give peak exactly 24, keep zeros and channel order, and miss the exact scale by at most half a step; bright colours are kept |
| Colours.HalvesOnlyAtSixteen | src/lighting_control/devices/state_validator.py:52-55 | a channel falls halfway between two integers only at peak 16 |
| Colours.ClampsDifferIff | frontend/src/lib/colorClamp.ts:28-35 | the clamps are within one step of each other, and differ exactly at peak 16 with a channel of 3, 7, 11 or 15 |
| Colours.TheyDoDiffer | frontend/src/lib/colorClamp.ts:28-35 | on (16, 3, 0) the backend gives green 4 and the frontend 5 |
| StateValidator.ValidateControlState | src/lighting_control/devices/state_validator.py:27-68 | the validator, filling its result key by key, accepts and refuses as specified |
| StateValidator.AcceptedIff | src/lighting_control/devices/state_validator.py:27-68 | exactly which payloads are accepted, key by key; those that turn off come out as that alone |
| StateValidator.RefusedWith | src/lighting_control/devices/state_validator.py:27-68 | what a refused payload is told: its first problem, in the order of the checks |
| StateValidator.ResultIsNormal | src/lighting_control/devices/state_validator.py:27-68 | whatever is accepted comes out as turn_off alone, or at most one of rgb, temperature and scene with a dimming |
| StateValidator.NormalIffFixed | src/lighting_control/devices/state_validator.py:27-68 | the normal forms are exactly the payloads that validation leaves alone |
| StateValidator.ValidateIsIdempotent | src/lighting_control/devices/state_validator.py:27-68 | validating twice is validating once |
| StateValidator.ValidateKeepsTheRequest | src/lighting_control/devices/state_validator.py:57-67 | temperature, scene and dimming come out as asked for, and none is added |
| StateValidator.ValidateKeepsTheColour | src/lighting_control/devices/state_validator.py:44-56 | the colour comes out as asked for or as its faithful clamp |
| ColorClamp.PairParsesIff | frontend/src/lib/colorClamp.ts:9-15 | which pairs of characters the parser reads as a number |
| ColorClamp.WriteThenRead | frontend/src/lib/colorClamp.ts:5-26 | reading a written colour gives it back, for all channels of 0 to 255 |
| ColorClamp.ReadThenWrite | frontend/src/lib/colorClamp.ts:5-26 | writing a colour that was read gives the canonical lower-case form, for every string of three or six hex digits |
| ColorClamp.BackendKeepsClamped | frontend/src/lib/colorClamp.ts:28-35 | the backend accepts every clamped colour and leaves it unchanged |
| ColorClamp.ClampIsIdempotent | frontend/src/lib/colorClamp.ts:28-35 | clamping twice is clamping once |
| ColorClamp.SameColourIff | frontend/src/lib/colorClamp.ts:28-35 | clamping here or leaving it to the backend gives the same colour exactly when the two roundings agree |
| ColorClamp.ReadIff | frontend/src/lib/colorClamp.ts:5-21 | exactly which strings are read; malformed ones of six characters may be |
| ColorClamp.MalformedIsRead | frontend/src/lib/colorClamp.ts:5-21 | "#1z2z3z" is read as (1, 2, 3) |

## Left out

- Network and device input and output, UDP discovery, web push, the task queue, HTTP wiring and static files: foreign code. A device's answer, the previous firing of a cron expression and a given sunrise are inputs of the model.
- WebAuthn cryptography, password hashing, tokens and one-time codes: library code. A finish event carries the verified answer or none; the count check that the verification library makes on its own is part of that answer.
- Fresh ids: an import takes the ids it would draw as a function of the position; session ids are assumed not to be drawn twice, and only the run theorems about challenges use that.
- Fields with no bearing on the claims: network address, model, timestamps, child row ids, `webhook_secret_hash`, key names, public keys and attestation. `lastUsedAt` and the instants of one request are one instant.
- A challenge's stored bridge user is never read by the code, so it is not modelled; the clean-up of expired challenges is modelled although nothing calls it.
- The ORM's identity map. When one envelope names a group twice, its members are deleted and added again in one flush; when a merge envelope carries an existing schedule's or quick action's id twice, the second item finds the row with the list of children it was loaded with, so children added for the first item may survive. The model takes the last item's members, triggers and targets.
- Triggers and targets are kept in insertion order, which the relational store does not promise; group membership is a set, as its composite key makes it.
- An explicit JSON null in a field that has a default when missing.
- A scene's id collision surfaces at the flush after the loop rather than at its item; the outcome of the request is the same.
- Foreign keys are not enforced by the store, and the model does not enforce them either. The initial migration makes zone names unique in the whole store where the mapped classes do not; the model follows the classes.
- Queries.ExportSceneList: the order by name is left open, because it depends on the database's collation. Devices are exported in no order.
- MergeMeaning.MergedTarget: speaks of targets on an exported room, zone or group whose id is not also that of an exported row of another kind; which row a shared id goes to is in `RestoreFacts.RemapIsComplete`.
- Dispatch.TranslateStateToPilotArgs: payload numbers are integers; fractional levels, and integers too large for a float to hold exactly, are not modelled. The checks that the bulb library makes on pilot arguments are part of a device's answer.
- Dispatch.ExecuteTarget: the commands of one target; the results dictionary and the stored device state are not modelled there.
- FanOut.Panel.BulkControl: the payload is validated before, by `StateValidator`; a target's ids are given as `Queries.ResolveDeviceIds` lists them.
- Ticks.CheckCron: executing a schedule is one call that succeeds or raises; what it sends is in `Dispatch`.
- ColorClamp.ReadIff: lower-casing is that of ASCII, and strings are sequences of 16-bit units.
- Sessions, invitations, API keys, roles, websocket subscriptions and plain create, rename and list functions: one-field facts.
- Which priority should win between schedules: the code lists by priority and says no more.
- Pages, dialogs, client stores and palette mathematics of the frontend.
