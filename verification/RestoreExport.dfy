/** Restoring an export: exactly when it succeeds, and exactly what it leaves. */
module RestoreExport {
  import opened Prelude
  import opened Stores
  import opened Envelopes
  import opened Hierarchy
  import opened HierarchyFacts
  import opened Exports
  import opened Replay
  import opened Tables
  import opened Backups
  import opened Mirrors

  /** The zones an export shows: those of existing rooms. */
  ghost function ShownZones(src: Store): map<Id, Zone> {
    map z | z in src.zones && src.zones[z].key.room in src.rooms :: src.zones[z]
  }

  ghost function HierarchyIds(src: Store): set<Id> {
    src.rooms.Keys + ShownZones(src).Keys + src.groups.Keys
  }

  ghost function OwnIds(src: Store): map<Id, Id> {
    map x | x in HierarchyIds(src) :: x
  }

  /** What the import makes of the ids in an export of `src`. */
  ghost function ExportRemap(src: Store, devices: map<Id, Device>): map<Id, Id> {
    DeviceIds(src, devices) + OwnIds(src)
  }

  ghost function CarriedGroups(src: Store, devices: map<Id, Device>): map<Id, Group> {
    map g | g in src.groups :: CarriedGroup(src, devices, src.groups[g])
  }

  ghost function Settle(src: Store, d: Device): Device {
    Resettled(src, d.(name := NameFrom(src, d)))
  }

  /** The store that restoring an export of `src` leaves: over any `st` in replace mode, over `src` itself in
      a merge. */
  ghost function Restored(src: Store, st: Store, mode: Mode, user: Id): Store {
    var remap := ExportRemap(src, st.devices);
    Store(
      map e | e in st.devices :: Settle(src, if mode.Replace? then st.devices[e].(room := None, zone := None)
                                        else st.devices[e]),
      src.rooms,
      if mode.Merge? then src.zones else ShownZones(src),
      CarriedGroups(src, st.devices),
      Rewritten(src.schedules, Kept(st.schedules, mode), (v: Schedule) => RemapSchedule(remap, v), user),
      Rewritten(src.actions, Kept(st.actions, mode), (v: QuickAction) => RemapAction(remap, v), user),
      Rewritten(src.scenes, Kept(st.scenes, mode), (v: Scene) => v, user))
  }

  /** The store after restoring an export of `src` over `dst` in replace mode. */
  ghost function Mirror(src: Store, dst: Store, user: Id): Store {
    Restored(src, dst, Replace, user)
  }

  /** The store after merging an export of `src` into `src` itself. */
  ghost function Refreshed(src: Store, user: Id): Store {
    Restored(src, src, Merge, user)
  }

  predicate AllHaveTargets(actions: map<Id, Owned<QuickAction>>) {
    forall i :: i in actions ==> actions[i].view.targets != []
  }

  // ---------- The document's ids

  lemma DocumentIds(src: Store, doc: seq<Step>, kind: Kind)
    requires ExportsDocument(src, doc) && CoversStore(src, doc)
    ensures IdsOf(doc, kind) == ShownIds(src, kind)
  {
    forall x
      ensures x in IdsOf(doc, kind) <==> x in ShownIds(src, kind)
    {
      IdsOfMeans(doc, kind, x);
      if k :| 0 <= k < |doc| && doc[k].Kind() == kind && doc[k].Id() == Some(x) {
        assert ExportsStep(src, doc[k]);
      }
    }
  }

  // ---------- The hierarchy of a restored export

  /** The exported rows, the identity remap, and every device where the export shows it. */
  ghost predicate Imported(src: Store, job: Job, h: Hier) {
    && Rooms(job, h) == src.rooms
    && Zones(job, h) == (if job.mode.Merge? then src.zones else ShownZones(src))
    && Groups(job, h) == CarriedGroups(src, job.base.devices)
    && h.remap == OwnIds(src)
    && forall d :: Placed(d, h.log) == Resettled(src, d)
  }

  lemma OverlayCovers<V>(base: map<Id, V>, w: map<Id, V>)
    requires base.Keys <= w.Keys
    ensures base + w == w
  {
  }

  lemma OverlayWithin<V>(base: map<Id, V>, w: map<Id, V>)
    requires forall i :: i in w ==> i in base && base[i] == w[i]
    ensures base + w == base
  {
  }

  lemma RebuiltRooms(src: Store, job: Job, doc: seq<Step>, h: Hier)
    requires Ready(src, job) && Rebuilt(src, job.base.devices, doc, h)
        && IdsOf(doc, RoomKind) == ShownIds(src, RoomKind)
    ensures Rooms(job, h) == src.rooms
  {
    assert h.rooms.Keys == src.rooms.Keys;
    OverlayCovers(job.base.rooms, h.rooms);
    assert h.rooms == src.rooms;
  }

  lemma RebuiltZones(src: Store, job: Job, doc: seq<Step>, h: Hier)
    requires Ready(src, job) && Rebuilt(src, job.base.devices, doc, h)
        && IdsOf(doc, ZoneKind) == ShownIds(src, ZoneKind)
    ensures Zones(job, h) == if job.mode.Merge? then src.zones else ShownZones(src)
  {
    assert h.zones.Keys == ShownIds(src, ZoneKind);
    if job.mode.Merge? {
      OverlayWithin(job.base.zones, h.zones);
    } else {
      OverlayCovers(job.base.zones, h.zones);
      assert h.zones == ShownZones(src);
    }
  }

  lemma RebuiltGroups(src: Store, job: Job, doc: seq<Step>, h: Hier)
    requires Ready(src, job) && Rebuilt(src, job.base.devices, doc, h)
        && IdsOf(doc, GroupKind) == ShownIds(src, GroupKind)
    ensures Groups(job, h) == CarriedGroups(src, job.base.devices)
  {
    assert h.groups.Keys == src.groups.Keys;
    OverlayCovers(job.base.groups, h.groups);
    assert h.groups == CarriedGroups(src, job.base.devices);
  }

  lemma RebuiltRemap(src: Store, doc: seq<Step>, h: Hier)
    requires KeepsIds(doc, h)
    requires IdsOf(doc, RoomKind) == ShownIds(src, RoomKind)
    requires IdsOf(doc, ZoneKind) == ShownIds(src, ZoneKind)
    requires IdsOf(doc, GroupKind) == ShownIds(src, GroupKind)
    ensures h.remap == OwnIds(src)
  {
    assert h.remap.Keys == HierarchyIds(src);
  }

  lemma RebuiltTables(src: Store, job: Job, doc: seq<Step>, h: Hier)
    requires Ready(src, job) && Rebuilt(src, job.base.devices, doc, h) && KeepsIds(doc, h)
    requires IdsOf(doc, RoomKind) == ShownIds(src, RoomKind)
    requires IdsOf(doc, ZoneKind) == ShownIds(src, ZoneKind)
    requires IdsOf(doc, GroupKind) == ShownIds(src, GroupKind)
    ensures Rooms(job, h) == src.rooms
    ensures Zones(job, h) == if job.mode.Merge? then src.zones else ShownZones(src)
    ensures Groups(job, h) == CarriedGroups(src, job.base.devices)
    ensures h.remap == OwnIds(src)
  {
    hide Ready, Rebuilt, KeepsIds;
    RebuiltRooms(src, job, doc, h);
    RebuiltZones(src, job, doc, h);
    RebuiltGroups(src, job, doc, h);
    RebuiltRemap(src, doc, h);
  }

  lemma ImportedTables(src: Store, job: Job, doc: seq<Step>)
    requires Ready(src, job) && ExportsDocument(src, doc) && CoversStore(src, doc)
    ensures Run(job, doc).Ok?
    ensures
      var h := Run(job, doc).value;
      && Rooms(job, h) == src.rooms
      && Zones(job, h) == (if job.mode.Merge? then src.zones else ShownZones(src))
      && Groups(job, h) == CarriedGroups(src, job.base.devices)
      && h.remap == OwnIds(src)
  {
    ReplayRun(src, job, doc);
    DocumentIds(src, doc, RoomKind);
    DocumentIds(src, doc, ZoneKind);
    DocumentIds(src, doc, GroupKind);
    RebuiltTables(src, job, doc, Run(job, doc).value);
  }

  lemma ImportedHierarchy(src: Store, job: Job, doc: seq<Step>)
    requires Ready(src, job) && ExportsDocument(src, doc) && CoversStore(src, doc)
    ensures Run(job, doc).Ok? && Imported(src, job, Run(job, doc).value)
  {
    ImportedTables(src, job, doc);
    var h := Run(job, doc).value;
    forall d ensures Placed(d, h.log) == Resettled(src, d) {
      ReplayPlaces(src, job, doc, d);
    }
  }

  lemma CarriedBySameHardware(src: Store, a: map<Id, Device>, b: map<Id, Device>)
    requires SameHardware(a, b)
    ensures CarriedGroups(src, a) == CarriedGroups(src, b)
  {
    forall g | g in src.groups
      ensures CarriedGroup(src, a, src.groups[g]) == CarriedGroup(src, b, src.groups[g])
    {
      assert Carry(src, a, src.groups[g].attrs.members) == Carry(src, b, src.groups[g].attrs.members);
    }
  }

  // ---------- The tables of a restored export

  lemma ReadScheduleTable(src: Store, items: seq<ScheduleItem>, remap: map<Id, Id>)
    requires ExportsSchedules(src, items)
    ensures ReadsTable(src.schedules, (s: Schedule) => RemapSchedule(remap, s), ScheduleEntries(remap, items))
    ensures forall k :: 0 <= k < |items| ==> ScheduleEntries(remap, items)[k].early.None?
  {
    var entries := ScheduleEntries(remap, items);
    forall k | 0 <= k < |items|
      ensures entries[k] == Entry(items[k].id, None, Ok(RemapSchedule(remap, src.schedules[items[k].id.value].view)))
    {
      ReadScheduleBack(remap, items[k].id.value, src.schedules[items[k].id.value].view);
    }
    forall i | i in src.schedules
      ensures exists k :: 0 <= k < |entries| && entries[k].id == Some(i)
    {
      var k :| 0 <= k < |items| && items[k].id == Some(i);
      assert entries[k].id == Some(i);
    }
  }

  lemma ReadActionTable(src: Store, items: seq<ActionItem>, remap: map<Id, Id>)
    requires ExportsActions(src, items)
    ensures ReadsTable(src.actions, (a: QuickAction) => RemapAction(remap, a), ActionEntries(remap, items))
    ensures (forall k :: 0 <= k < |items| ==> ActionEntries(remap, items)[k].early.None?) <==>
        AllHaveTargets(src.actions)
  {
    var entries := ActionEntries(remap, items);
    forall k | 0 <= k < |items|
      ensures
        var view := src.actions[items[k].id.value].view;
        entries[k] == Entry(items[k].id, if view.targets == [] then Some(NoTargets)
                            else None, Ok(RemapAction(remap, view)))
    {
      ReadActionBack(remap, items[k].id.value, src.actions[items[k].id.value].view);
    }
    forall i | i in src.actions
      ensures exists k :: 0 <= k < |entries| && entries[k].id == Some(i)
    {
      var k :| 0 <= k < |items| && items[k].id == Some(i);
      assert entries[k].id == Some(i);
    }
  }

  lemma ReadSceneTable(src: Store, items: seq<SceneItem>)
    requires ExportsScenes(src, items)
    ensures ReadsTable(src.scenes, (s: Scene) => s, SceneEntries(items))
    ensures forall k :: 0 <= k < |items| ==> SceneEntries(items)[k].early.None?
  {
    var entries := SceneEntries(items);
    assert forall k :: 0 <= k < |items| ==>
      entries[k] == Entry(items[k].id, None, Ok(src.scenes[items[k].id.value].view));
    forall i | i in src.scenes
      ensures exists k :: 0 <= k < |entries| && entries[k].id == Some(i)
    {
      var k :| 0 <= k < |items| && items[k].id == Some(i);
      assert entries[k].id == Some(i);
    }
  }

  // ---------- The two theorems

  lemma ExportedSchedules(src: Store, env: Envelope, st: Store, mode: Mode, user: Id, mint: Mint, remap: map<Id, Id>)
    requires "" !in src.schedules && ExportsSchedules(src, env.schedules)
        && (mode.Merge? ==> st.schedules == src.schedules)
    ensures
      var s := LoadSchedules(st, env, mode, user, mint, remap);
      && s.Ok?
      && Kept(st.schedules, mode) + s.value.rows ==
           Rewritten(src.schedules, Kept(st.schedules, mode), (v: Schedule) => RemapSchedule(remap, v), user)
  {
    hide LoadAll;
    ReadScheduleTable(src, env.schedules, remap);
    LoadTable(src.schedules, Kept(st.schedules, mode), (v: Schedule) => RemapSchedule(remap, v), mode, user,
              mint.schedules,
              ScheduleEntries(remap, env.schedules));
  }

  lemma ExportedActions(src: Store, env: Envelope, st: Store, mode: Mode, user: Id, mint: Mint, remap: map<Id, Id>)
    requires "" !in src.actions && ExportsActions(src, env.actions) && (mode.Merge? ==> st.actions == src.actions)
    ensures
      var a := LoadActions(st, env, mode, user, mint, remap);
      && (a.Ok? <==> AllHaveTargets(src.actions))
      && (a.Ok? ==> Kept(st.actions, mode) + a.value.rows ==
                      Rewritten(src.actions, Kept(st.actions, mode), (v: QuickAction) => RemapAction(remap, v), user))
  {
    hide LoadAll;
    ReadActionTable(src, env.actions, remap);
    LoadTable(src.actions, Kept(st.actions, mode), (v: QuickAction) => RemapAction(remap, v), mode, user, mint.actions,
              ActionEntries(remap, env.actions));
  }

  lemma ExportedScenes(src: Store, env: Envelope, st: Store, mode: Mode, user: Id, mint: Mint)
    requires "" !in src.scenes && ExportsScenes(src, env.scenes) && (mode.Merge? ==> st.scenes == src.scenes)
    ensures
      var c := LoadScenes(st, env, mode, user, mint);
      && c.Ok?
      && Kept(st.scenes, mode) + c.value.rows == Rewritten(src.scenes, Kept(st.scenes, mode), (v: Scene) => v, user)
  {
    hide LoadAll;
    ReadSceneTable(src, env.scenes);
    LoadTable(src.scenes, Kept(st.scenes, mode), (v: Scene) => v, mode, user, mint.scenes, SceneEntries(env.scenes));
  }

  lemma SettledDevices(src: Store, env: Envelope, st: Store, mode: Mode, h: Hier)
    requires UniqueMacs(src.devices) && ExportsDevices(src, env.devices)
    requires forall d :: Placed(d, h.log) == Resettled(src, d)
    ensures PlaceAll(Base(st, env, mode).devices, h.log) ==
            map e | e in st.devices :: Settle(src, if mode.Replace? then st.devices[e].(room := None, zone := None)
                                              else st.devices[e])
  {
    var base := Base(st, env, mode).devices;
    forall e | e in st.devices
      ensures Placed(base[e], h.log) == Settle(src, if mode.Replace? then st.devices[e].(room := None, zone := None)
                                               else st.devices[e])
    {
      RenamedByExport(src, env.devices, st.devices[e]);
    }
  }

  /** The parts of a restored store, put together. */
  lemma AssembledExport(src: Store, st: Store, env: Envelope, mode: Mode, user: Id, mint: Mint, h: Hier,
                        s: Load<Schedule>, a: Load<QuickAction>, c: Load<Scene>, after: Store)
    requires Imported(src, HierarchyJob(st, env, mode, mint), h) && (mode.Merge? ==> st == src)
    requires after.devices == PlaceAll(Base(st, env, mode).devices, h.log)
    requires after.groups == CarriedGroups(src, Base(st, env, mode).devices)
    requires after.rooms == src.rooms && after.zones == if mode.Merge? then src.zones else ShownZones(src)
    requires after.schedules == Kept(st.schedules, mode) + s.rows
    requires after.actions == Kept(st.actions, mode) + a.rows
    requires after.scenes == Kept(st.scenes, mode) + c.rows
    ensures Assemble(st, env, mode, mint, h, s, a, c).0 == after
  {
  }

  /** A restore of an export succeeds when the quick actions load, and then leaves `Restored`. */
  lemma RestoreOfExport(src: Store, st: Store, env: Envelope, mode: Mode, user: Id, mint: Mint, h: Hier)
    requires UniqueMacs(src.devices) && ExportsDevices(src, env.devices) && (mode.Merge? ==> st == src)
    requires env.version == BACKUP_VERSION && Run(HierarchyJob(st, env, mode, mint), Document(env)) == Ok(h)
    requires Imported(src, HierarchyJob(st, env, mode, mint), h)
    requires Valid(src) && IsExport(src, env)
    requires IdRemap(st, env, h) == ExportRemap(src, st.devices)
    ensures Restore(st, env, mode, user, mint).Ok? <==> AllHaveTargets(src.actions)
    ensures Restore(st, env, mode, user, mint).Ok? ==> After(st, env, mode, user, mint) == Restored(src, st, mode, user)
  {
    hide Run, LoadSchedules, LoadActions, LoadScenes, Restore;
    var remap := ExportRemap(src, st.devices);
    ExportedSchedules(src, env, st, mode, user, mint, remap);
    ExportedActions(src, env, st, mode, user, mint, remap);
    ExportedScenes(src, env, st, mode, user, mint);
    RestoreParts(st, env, mode, user, mint, h);
    if AllHaveTargets(src.actions) {
      CarriedBySameHardware(src, HierarchyJob(st, env, mode, mint).base.devices, st.devices);
      SettledDevices(src, env, st, mode, h);
      AssembledExport(src, st, env, mode, user, mint, h, LoadSchedules(st, env, mode, user, mint, remap).value,
                      LoadActions(st, env, mode, user, mint, remap).value, LoadScenes(st, env, mode, user, mint).value,
                      Restored(src, st, mode, user));
    }
  }

  lemma JobIsReady(src: Store, st: Store, env: Envelope, mode: Mode, mint: Mint)
    requires Valid(src) && Valid(st) && (mode.Merge? ==> st == src && UniqueZones(src))
    ensures Ready(src, HierarchyJob(st, env, mode, mint))
  {
  }

  lemma ExportRuns(src: Store, st: Store, env: Envelope, mode: Mode, mint: Mint) returns (h: Hier)
    requires Valid(src) && Valid(st) && IsExport(src, env) && (mode.Merge? ==> st == src && UniqueZones(src))
    ensures Run(HierarchyJob(st, env, mode, mint), Document(env)) == Ok(h)
    ensures Imported(src, HierarchyJob(st, env, mode, mint), h)
    ensures IdRemap(st, env, h) == ExportRemap(src, st.devices)
  {
    hide Run, ExportsDocument, CoversStore, Ready, Document, UniqueZones;
    var job := HierarchyJob(st, env, mode, mint);
    JobIsReady(src, st, env, mode, mint);
    ExportDocument(src, env);
    DocumentCovers(src, env);
    ImportedHierarchy(src, job, Document(env));
    h := Run(job, Document(env)).value;
    DeviceRemapOfExport(src, st.devices, env.devices);
  }

  /** An export of any valid store restores over any store in replace mode, exactly when each of
      its quick actions has a target; the result is the mirror of the exported store. */
  lemma ReplaceWithExport(src: Store, dst: Store, env: Envelope, user: Id, mint: Mint)
    requires Valid(src) && Valid(dst) && IsExport(src, env)
    ensures Restore(dst, env, Replace, user, mint).Ok? <==> AllHaveTargets(src.actions)
    ensures Restore(dst, env, Replace, user, mint).Ok? ==>
        After(dst, env, Replace, user, mint) == Mirror(src, dst, user)
  {
    var h := ExportRuns(src, dst, env, Replace, mint);
    RestoreOfExport(src, dst, env, Replace, user, mint, h);
  }

  /** When a merge comes to a zone of an existing room, that room is the current row. */
  lemma MergeIsInRoom(job: Job, doc: seq<Step>, p: RoomItem, r: Id)
    requires Run(job, doc).Ok? && WellNested(doc) && doc != [] && InRoom(doc[|doc| - 1], p)
    requires UniqueKeys(job.base.rooms) && UniqueKeys(job.base.groups)
    requires r in job.base.rooms && p.name == Some(job.base.rooms[r].key)
    ensures Run(job, doc).value.cur == r
  {
    CurrentRoom(job, doc, p);
    BaseRowsKept(job, doc);
    RunKeepsUnique(job, doc);
  }

  lemma TwoHits(job: Job, h: Hier, item: ZoneItem, n: nat, z: Id, other: Id)
    requires job.mode == Merge && KeepsKeys(job.base.zones, Zones(job, h))
    requires z in job.base.zones && other in job.base.zones && z != other
    requires job.base.zones[z].key == job.base.zones[other].key == ZoneKey(OrElse(item.name, ""), h.cur)
    ensures ApplyZone(job, h, item, n).Err?
  {
    if item.name.Some? {
      var hits := Hits(Zones(job, h), ZoneKey(item.name.value, h.cur));
      assert z in hits && other in hits;
    }
  }

  /** A merge that reaches a zone whose name is ambiguous in its room cannot find the row. */
  lemma AmbiguousZoneFails(src: Store, job: Job, doc: seq<Step>, k: nat, z: Id, other: Id)
    requires k < |doc| && WellNested(doc) && doc[k].ZoneStep? && doc[k].Id() == Some(z) && ExportsStep(src, doc[k])
    requires UniqueKeys(src.rooms) && UniqueKeys(src.groups)
    requires job.mode == Merge && job.base.rooms == src.rooms && job.base.zones == src.zones
        && job.base.groups == src.groups
    requires z in src.zones && other in src.zones && z != other && src.zones[z].key == src.zones[other].key
    ensures Run(job, doc).Err?
  {
    if Run(job, doc).Ok? {
      RunPrefix(job, doc, k);
      RunPrefix(job, doc, k + 1);
      RunStep(job, doc, k);
      assert doc[..k][k - 1] == doc[k - 1];
      MergeIsInRoom(job, doc[..k], doc[k].parent, src.zones[z].key.room);
      BaseRowsKept(job, doc[..k]);
      TwoHits(job, Run(job, doc[..k]).value, doc[k].zone, k, z, other);
    }
  }

  lemma AmbiguousRunFails(src: Store, env: Envelope, job: Job, z: Id, other: Id)
    requires UniqueKeys(src.rooms) && UniqueKeys(src.groups)
    requires ExportsDocument(src, Document(env)) && ExportsRooms(src, env.rooms)
    requires job.mode == Merge && job.base.rooms == src.rooms && job.base.zones == src.zones
        && job.base.groups == src.groups
    requires z in src.zones && other in src.zones && z != other && src.zones[z].key == src.zones[other].key
    requires src.zones[z].key.room in src.rooms
    ensures Run(job, Document(env)).Err?
  {
    var k := ZoneCovered(src, env, z);
    assert ExportsStep(src, Document(env)[k]);
    AmbiguousZoneFails(src, job, Document(env), k, z, other);
  }

  lemma AmbiguousZones(src: Store) returns (z: Id, other: Id)
    requires !UniqueZones(src)
    ensures z in src.zones && other in src.zones && z != other && src.zones[z].key == src.zones[other].key
    ensures src.zones[z].key.room in src.rooms
  {
    z, other :| z in src.zones && other in src.zones && src.zones[z].key == src.zones[other].key &&
                src.zones[z].key.room in src.rooms && z != other;
  }

  lemma RunFails(st: Store, env: Envelope, mode: Mode, user: Id, mint: Mint)
    requires Run(HierarchyJob(st, env, mode, mint), Document(env)).Err?
    ensures Restore(st, env, mode, user, mint).Err?
  {
  }

  lemma AmbiguousMergeFails(src: Store, env: Envelope, user: Id, mint: Mint)
    requires Valid(src) && IsExport(src, env) && !UniqueZones(src)
    ensures Restore(src, env, Merge, user, mint).Err?
  {
    hide Run, Restore, Document, ExportsDocument, ExportsRooms, CoversStore;
    var z, other := AmbiguousZones(src);
    ExportDocument(src, env);
    assert UniqueKeys(src.rooms) && UniqueKeys(src.groups) && ExportsRooms(src, env.rooms);
    hide Valid, IsExport;
    AmbiguousRunFails(src, env, HierarchyJob(src, env, Merge, mint), z, other);
    RunFails(src, env, Merge, user, mint);
  }

  /** Merging a store's own export into it succeeds exactly when each quick action has a target and
      no room has two zones of one name. */
  lemma MergeOwnExport(src: Store, env: Envelope, user: Id, mint: Mint)
    requires Valid(src) && IsExport(src, env)
    ensures Restore(src, env, Merge, user, mint).Ok? <==> AllHaveTargets(src.actions) && UniqueZones(src)
    ensures Restore(src, env, Merge, user, mint).Ok? ==> After(src, env, Merge, user, mint) == Refreshed(src, user)
  {
    if UniqueZones(src) {
      var h := ExportRuns(src, src, env, Merge, mint);
      RestoreOfExport(src, src, env, Merge, user, mint, h);
    } else {
      AmbiguousMergeFails(src, env, user, mint);
    }
  }
}
