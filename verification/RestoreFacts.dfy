/** What any successful restore keeps, whatever the envelope. */
module RestoreFacts {
  import opened Prelude
  import opened Stores
  import opened Envelopes
  import opened Hierarchy
  import opened HierarchyFacts
  import opened HierarchyRerun
  import opened HierarchyRows
  import opened Tables
  import opened Backups

  // ---------- Conservation

  /** No row of a table is lost. */
  ghost predicate KeepsRows<V>(a: map<Id, V>, b: map<Id, V>) {
    a.Keys <= b.Keys
  }

  /** A restore never creates, deletes or re-identifies a device. */
  lemma DevicesArePhysical(st: Store, env: Envelope, mode: Mode, user: Id, mint: Mint)
    requires Restore(st, env, mode, user, mint).Ok?
    ensures SameHardware(st.devices, After(st, env, mode, user, mint).devices)
  {
    hide Restore, Run, LoadAll;
    RestoredParts(st, env, mode, user, mint);
  }

  /** A merge deletes no row of any table, and renames no room, zone or group. */
  lemma MergeDeletesNothing(st: Store, env: Envelope, user: Id, mint: Mint)
    requires Restore(st, env, Merge, user, mint).Ok?
    ensures
      var after := After(st, env, Merge, user, mint);
      && KeepsKeys(st.rooms, after.rooms) && KeepsKeys(st.zones, after.zones) && KeepsKeys(st.groups, after.groups)
      && KeepsRows(st.schedules, after.schedules) && KeepsRows(st.actions, after.actions)
      && KeepsRows(st.scenes, after.scenes)
  {
    hide Restore, Run, LoadAll;
    RestoredParts(st, env, Merge, user, mint);
    BaseRowsKept(HierarchyJob(st, env, Merge, mint), Document(env));
  }

  /** The item names the device with this MAC. */
  ghost predicate NamesDevice(item: DeviceItem, mac: Mac) {
    item.mac == Some(mac) && mac != "" && item.name.Some? && item.name.value != ""
  }

  lemma {:induction false} RenamedByLast(d: Device, items: seq<DeviceItem>, k: nat)
    requires k < |items| && NamesDevice(items[k], d.mac)
    requires forall j: nat :: k < j < |items| ==> !NamesDevice(items[j], d.mac)
    ensures Renamed(d, items).name == items[k].name.value
    decreases |items|
  {
    if k < |items| - 1 {
      assert !NamesDevice(items[|items| - 1], d.mac);
      RenamedByLast(d, items[..|items| - 1], k);
    }
  }

  lemma {:induction false} UnnamedStays(d: Device, items: seq<DeviceItem>)
    requires forall j: nat :: j < |items| ==> !NamesDevice(items[j], d.mac)
    ensures Renamed(d, items) == d
    decreases |items|
  {
    if items != [] {
      assert !NamesDevice(items[|items| - 1], d.mac);
      UnnamedStays(d, items[..|items| - 1]);
    }
  }

  /** A device gets the name of the last item that names it, and keeps its own when none does. */
  lemma DevicesAreRenamed(st: Store, env: Envelope, mode: Mode, user: Id, mint: Mint, d: Id)
    requires Restore(st, env, mode, user, mint).Ok? && d in st.devices
    ensures d in After(st, env, mode, user, mint).devices
    ensures
      var mac, after := st.devices[d].mac, After(st, env, mode, user, mint).devices[d];
      && (forall k: nat :: k < |env.devices| && NamesDevice(env.devices[k], mac) &&
                           (forall j: nat :: k < j < |env.devices| ==> !NamesDevice(env.devices[j], mac)) ==>
            after.name == env.devices[k].name.value)
      && ((forall j: nat :: j < |env.devices| ==> !NamesDevice(env.devices[j], mac)) ==>
          after.name == st.devices[d].name)
  {
    hide Restore, Run, LoadAll, Renamed;
    RestoredParts(st, env, mode, user, mint);
    var was := st.devices[d];
    forall k: nat | k < |env.devices| && NamesDevice(env.devices[k], was.mac) &&
                    (forall j: nat :: k < j < |env.devices| ==> !NamesDevice(env.devices[j], was.mac))
      ensures Renamed(was, env.devices).name == env.devices[k].name.value
    {
      RenamedByLast(was, env.devices, k);
    }
    if forall j: nat :: j < |env.devices| ==> !NamesDevice(env.devices[j], was.mac) {
      UnnamedStays(was, env.devices);
    }
  }

  // ---------- What the rows matched by id hold

  ghost predicate Substituted(remap: map<Id, Id>, items: seq<TargetItem>, stored: seq<Target>) {
    && |stored| == |items|
    && forall k :: 0 <= k < |items| ==>
         && items[k].kind == Some(TargetTypeName(stored[k].kind))
         && stored[k].id == RemapId(remap, items[k].id)
         && stored[k].excludes == RemapExcludes(remap, items[k].excludes)
         && items[k].state == Some(stored[k].state)
  }

  ghost predicate TriggersAs(items: seq<TriggerItem>, stored: seq<Trigger>) {
    && |stored| == |items|
    && forall k :: 0 <= k < |items| ==>
         && items[k].kind == Some(TriggerTypeName(stored[k].kind))
         && stored[k].cron == items[k].cron && stored[k].offset == items[k].offset
  }

  /** The schedule holds what the item says, each target id replaced once by the remap. */
  ghost predicate ScheduleAs(remap: map<Id, Id>, item: ScheduleItem, s: Schedule) {
    && item.name == Some(s.name) && s.enabled == OrElse(item.enabled, true) && s.priority == OrElse(item.priority, 0)
    && TriggersAs(item.triggers, s.triggers) && Substituted(remap, item.targets, s.targets)
  }

  ghost predicate ActionAs(remap: map<Id, Id>, item: ActionItem, a: QuickAction) {
    && item.name == Some(a.name) && a.icon == item.icon && a.sortOrder == OrElse(item.sortOrder, 0)
    && a.targets != [] && Substituted(remap, item.targets, a.targets)
  }

  ghost predicate SceneAs(item: SceneItem, s: Scene) {
    && item.name == Some(s.name) && s.brightness == OrElse(item.brightness, 100)
    && s.red == item.red && s.green == item.green && s.blue == item.blue && s.temp == item.temp
  }

  lemma {:induction false} ReadTargetsSubstitutes(remap: map<Id, Id>, items: seq<TargetItem>)
    requires ReadTargets(remap, items).Ok?
    ensures Substituted(remap, items, ReadTargets(remap, items).value)
    decreases |items|
  {
    if items != [] {
      var n := |items| - 1;
      ReadTargetsSubstitutes(remap, items[..n]);
      assert forall k :: 0 <= k < n ==> items[..n][k] == items[k];
    }
  }

  lemma {:induction false} ReadTriggersKeeps(items: seq<TriggerItem>)
    requires ReadTriggers(items).Ok?
    ensures TriggersAs(items, ReadTriggers(items).value)
    decreases |items|
  {
    if items != [] {
      var n := |items| - 1;
      ReadTriggersKeeps(items[..n]);
      assert forall k :: 0 <= k < n ==> items[..n][k] == items[k];
    }
  }

  lemma ScheduleEntryMeans(remap: map<Id, Id>, item: ScheduleItem, s: Schedule)
    requires ScheduleEntry(remap, item).early.None? && ScheduleEntry(remap, item).view == Ok(s)
    ensures ScheduleAs(remap, item, s)
  {
    hide ReadTargets, ReadTriggers;
    ReadTriggersKeeps(item.triggers);
    ReadTargetsSubstitutes(remap, item.targets);
  }

  lemma ActionEntryMeans(remap: map<Id, Id>, item: ActionItem, a: QuickAction)
    requires ActionEntry(remap, item).early.None? && ActionEntry(remap, item).view == Ok(a)
    ensures ActionAs(remap, item, a)
  {
    hide ReadTargets;
    ReadTargetsSubstitutes(remap, item.targets);
  }

  /** The row holds the content of the last item stored in it. */
  ghost predicate HoldsItem<V(!new)>(entries: seq<Entry<V>>, mint: nat -> Id, k: nat, i: Id, row: Owned<V>) {
    k < |entries| && LastInSlot(entries, mint, k, i) && entries[k].early.None? && entries[k].view == Ok(row.view)
  }

  ghost predicate NoItem<V(!new)>(entries: seq<Entry<V>>, mint: nat -> Id, i: Id) {
    forall k: nat :: k < |entries| ==> Slot(entries[k], mint(k)) != i
  }

  /** Every item has its row; a row holds the last item stored in it, or was kept for want of any. */
  ghost predicate TableOf<V(!new)>(kept: map<Id, Owned<V>>, entries: seq<Entry<V>>, mint: nat -> Id,
                                   after: map<Id, Owned<V>>) {
    && (forall k: nat :: k < |entries| ==> Slot(entries[k], mint(k)) in after)
    && (forall i :: i in after ==>
          (exists k: nat :: HoldsItem(entries, mint, k, i, after[i])) ||
          (NoItem(entries, mint, i) && i in kept && after[i] == kept[i]))
  }

  lemma WrittenRow<V(!new)>(l: Load<V>, entries: seq<Entry<V>>, mint: nat -> Id, i: Id)
    requires Faithful(l, entries, mint) && i in l.rows
    ensures exists k: nat :: HoldsItem(entries, mint, k, i, l.rows[i])
  {
    hide LastInSlot;
    var k: nat :| k < |entries| && LastInSlot(entries, mint, k, i) && Fits(l, i, entries[k], mint(k));
    assert HoldsItem(entries, mint, k, i, l.rows[i]);
  }

  lemma UnwrittenRow<V(!new)>(l: Load<V>, entries: seq<Entry<V>>, mint: nat -> Id, i: Id)
    requires Faithful(l, entries, mint) && i !in l.rows
    ensures NoItem(entries, mint, i)
  {
    hide LastInSlot;
  }

  lemma FaithfulTable<V(!new)>(kept: map<Id, Owned<V>>, l: Load<V>, entries: seq<Entry<V>>, mint: nat -> Id)
    requires Faithful(l, entries, mint)
    ensures TableOf(kept, entries, mint, kept + l.rows)
  {
    hide HoldsItem, NoItem, LastInSlot;
    var after := kept + l.rows;
    forall i | i in after
      ensures (exists k: nat :: HoldsItem(entries, mint, k, i, after[i]))
          || (NoItem(entries, mint, i) && i in kept && after[i] == kept[i])
    {
      if i in l.rows {
        WrittenRow(l, entries, mint, i);
        var k: nat :| HoldsItem(entries, mint, k, i, l.rows[i]);
        assert after[i] == l.rows[i];
      } else {
        assert i in kept;
        UnwrittenRow(l, entries, mint, i);
      }
    }
  }

  lemma LoadedTable<V(!new)>(kept: map<Id, Owned<V>>, mode: Mode, user: Id, mint: nat -> Id, entries: seq<Entry<V>>)
    requires LoadAll(kept, mode, user, mint, entries).Ok?
    ensures TableOf(kept, entries, mint, kept + LoadAll(kept, mode, user, mint, entries).value.rows)
  {
    hide LoadAll, Faithful, TableOf;
    LoadIsFaithful(kept, mode, user, mint, entries);
    FaithfulTable(kept, LoadAll(kept, mode, user, mint, entries).value, entries, mint);
  }

  /** The schedule holds the content of the last item stored in its row. */
  ghost predicate FromSchedule(remap: map<Id, Id>, items: seq<ScheduleItem>, mint: nat -> Id, i: Id, row: Schedule) {
    exists k: nat :: k < |items| && LastInSlot(ScheduleEntries(remap, items), mint, k, i)
        && ScheduleAs(remap, items[k], row)
  }

  ghost predicate SchedulesOf(remap: map<Id, Id>, items: seq<ScheduleItem>, kept: map<Id, Owned<Schedule>>,
                              mint: nat -> Id, after: map<Id, Owned<Schedule>>) {
    && (forall k: nat :: k < |items| ==> SlotOf(items[k].id, mint(k)) in after)
    && (forall i :: i in after ==>
          FromSchedule(remap, items, mint, i, after[i].view)
              || (NoItem(ScheduleEntries(remap, items), mint, i) && i in kept && after[i] == kept[i]))
  }

  ghost predicate FromAction(remap: map<Id, Id>, items: seq<ActionItem>, mint: nat -> Id, i: Id, row: QuickAction) {
    exists k: nat :: k < |items| && LastInSlot(ActionEntries(remap, items), mint, k, i)
        && ActionAs(remap, items[k], row)
  }

  ghost predicate ActionsOf(remap: map<Id, Id>, items: seq<ActionItem>, kept: map<Id, Owned<QuickAction>>,
                            mint: nat -> Id, after: map<Id, Owned<QuickAction>>) {
    && (forall k: nat :: k < |items| ==> SlotOf(items[k].id, mint(k)) in after)
    && (forall i :: i in after ==>
          FromAction(remap, items, mint, i, after[i].view)
              || (NoItem(ActionEntries(remap, items), mint, i) && i in kept && after[i] == kept[i]))
  }

  ghost predicate FromScene(items: seq<SceneItem>, mint: nat -> Id, i: Id, row: Scene) {
    exists k: nat :: k < |items| && LastInSlot(SceneEntries(items), mint, k, i) && SceneAs(items[k], row)
  }

  ghost predicate ScenesOf(items: seq<SceneItem>, kept: map<Id, Owned<Scene>>, mint: nat -> Id,
                           after: map<Id, Owned<Scene>>) {
    && (forall k: nat :: k < |items| ==> SlotOf(items[k].id, mint(k)) in after)
    && (forall i :: i in after ==>
          FromScene(items, mint, i, after[i].view)
              || (NoItem(SceneEntries(items), mint, i) && i in kept && after[i] == kept[i]))
  }

  lemma ScheduleHolds(remap: map<Id, Id>, items: seq<ScheduleItem>, mint: nat -> Id, k: nat, i: Id,
                      row: Owned<Schedule>)
    requires HoldsItem(ScheduleEntries(remap, items), mint, k, i, row)
    ensures FromSchedule(remap, items, mint, i, row.view)
  {
    hide LastInSlot, ScheduleAs;
    assert ScheduleEntries(remap, items)[k] == ScheduleEntry(remap, items[k]);
    ScheduleEntryMeans(remap, items[k], row.view);
  }

  lemma ScheduleTable(remap: map<Id, Id>, items: seq<ScheduleItem>, kept: map<Id, Owned<Schedule>>, mint: nat -> Id,
                      after: map<Id, Owned<Schedule>>)
    requires TableOf(kept, ScheduleEntries(remap, items), mint, after)
    ensures SchedulesOf(remap, items, kept, mint, after)
  {
    hide LastInSlot, NoItem, HoldsItem, FromSchedule;
    var entries := ScheduleEntries(remap, items);
    forall k: nat | k < |items| ensures SlotOf(items[k].id, mint(k)) in after {
      assert Slot(entries[k], mint(k)) in after;
    }
    forall i | i in after
      ensures FromSchedule(remap, items, mint, i, after[i].view)
          || (NoItem(entries, mint, i) && i in kept && after[i] == kept[i])
    {
      if k: nat :| HoldsItem(entries, mint, k, i, after[i]) {
        ScheduleHolds(remap, items, mint, k, i, after[i]);
      }
    }
  }

  lemma ActionHolds(remap: map<Id, Id>, items: seq<ActionItem>, mint: nat -> Id, k: nat, i: Id, row: Owned<QuickAction>)
    requires HoldsItem(ActionEntries(remap, items), mint, k, i, row)
    ensures FromAction(remap, items, mint, i, row.view)
  {
    hide LastInSlot, ActionAs;
    assert ActionEntries(remap, items)[k] == ActionEntry(remap, items[k]);
    ActionEntryMeans(remap, items[k], row.view);
  }

  lemma ActionTable(remap: map<Id, Id>, items: seq<ActionItem>, kept: map<Id, Owned<QuickAction>>, mint: nat -> Id,
                    after: map<Id, Owned<QuickAction>>)
    requires TableOf(kept, ActionEntries(remap, items), mint, after)
    ensures ActionsOf(remap, items, kept, mint, after)
  {
    hide LastInSlot, NoItem, HoldsItem, FromAction;
    var entries := ActionEntries(remap, items);
    forall k: nat | k < |items| ensures SlotOf(items[k].id, mint(k)) in after {
      assert Slot(entries[k], mint(k)) in after;
    }
    forall i | i in after
      ensures FromAction(remap, items, mint, i, after[i].view)
          || (NoItem(entries, mint, i) && i in kept && after[i] == kept[i])
    {
      if k: nat :| HoldsItem(entries, mint, k, i, after[i]) {
        ActionHolds(remap, items, mint, k, i, after[i]);
      }
    }
  }

  lemma SceneHolds(items: seq<SceneItem>, mint: nat -> Id, k: nat, i: Id, row: Owned<Scene>)
    requires HoldsItem(SceneEntries(items), mint, k, i, row)
    ensures FromScene(items, mint, i, row.view)
  {
    hide LastInSlot;
    assert SceneEntries(items)[k] == SceneEntry(items[k]);
    assert SceneAs(items[k], row.view);
  }

  lemma SceneTable(items: seq<SceneItem>, kept: map<Id, Owned<Scene>>, mint: nat -> Id, after: map<Id, Owned<Scene>>)
    requires TableOf(kept, SceneEntries(items), mint, after)
    ensures ScenesOf(items, kept, mint, after)
  {
    hide LastInSlot, NoItem, HoldsItem, FromScene;
    var entries := SceneEntries(items);
    forall k: nat | k < |items| ensures SlotOf(items[k].id, mint(k)) in after {
      assert Slot(entries[k], mint(k)) in after;
    }
    forall i | i in after
      ensures FromScene(items, mint, i, after[i].view) || (NoItem(entries, mint, i) && i in kept && after[i] == kept[i])
    {
      if k: nat :| HoldsItem(entries, mint, k, i, after[i]) {
        SceneHolds(items, mint, k, i, after[i]);
      }
    }
  }

  /** After any restore, every schedule item has its row; and every schedule holds the content of the last
      item stored in its row, each target id replaced once by the merged remap, or is a row that a merge
      kept because no item went to it. */
  lemma SchedulesAreSubstituted(st: Store, env: Envelope, mode: Mode, user: Id, mint: Mint)
    requires Restore(st, env, mode, user, mint).Ok?
    ensures SchedulesOf(RemapOf(st, env, mode, user, mint), env.schedules, Kept(st.schedules, mode), mint.schedules,
                        After(st, env, mode, user, mint).schedules)
  {
    hide Restore, Run, LoadAll, TableOf, SchedulesOf;
    RestoredParts(st, env, mode, user, mint);
    var remap := RemapOf(st, env, mode, user, mint);
    LoadedTable(Kept(st.schedules, mode), mode, user, mint.schedules, ScheduleEntries(remap, env.schedules));
    ScheduleTable(remap, env.schedules, Kept(st.schedules, mode), mint.schedules,
                  After(st, env, mode, user, mint).schedules);
  }

  /** The same for quick actions. */
  lemma ActionsAreSubstituted(st: Store, env: Envelope, mode: Mode, user: Id, mint: Mint)
    requires Restore(st, env, mode, user, mint).Ok?
    ensures ActionsOf(RemapOf(st, env, mode, user, mint), env.actions, Kept(st.actions, mode), mint.actions,
                      After(st, env, mode, user, mint).actions)
  {
    hide Restore, Run, LoadAll, TableOf, ActionsOf;
    RestoredParts(st, env, mode, user, mint);
    var remap := RemapOf(st, env, mode, user, mint);
    LoadedTable(Kept(st.actions, mode), mode, user, mint.actions, ActionEntries(remap, env.actions));
    ActionTable(remap, env.actions, Kept(st.actions, mode), mint.actions, After(st, env, mode, user, mint).actions);
  }

  /** The same for scenes. */
  lemma ScenesAreRestored(st: Store, env: Envelope, mode: Mode, user: Id, mint: Mint)
    requires Restore(st, env, mode, user, mint).Ok?
    ensures ScenesOf(env.scenes, Kept(st.scenes, mode), mint.scenes, After(st, env, mode, user, mint).scenes)
  {
    hide Restore, Run, LoadAll, TableOf, ScenesOf;
    RestoredParts(st, env, mode, user, mint);
    LoadedTable(Kept(st.scenes, mode), mode, user, mint.scenes, SceneEntries(env.scenes));
    SceneTable(env.scenes, Kept(st.scenes, mode), mint.scenes, After(st, env, mode, user, mint).scenes);
  }

  /** After a replace, the tables matched by id hold one row for each item of the backup, with that item's
      content, and nothing else. */
  lemma ReplaceLeavesTheBackup(st: Store, env: Envelope, user: Id, mint: Mint)
    requires Restore(st, env, Replace, user, mint).Ok?
    ensures
      var after, remap := After(st, env, Replace, user, mint), RemapOf(st, env, Replace, user, mint);
      && |after.schedules| == |env.schedules| && |after.actions| == |env.actions| && |after.scenes| == |env.scenes|
      && (forall k: nat :: k < |env.schedules| ==> SlotOf(env.schedules[k].id, mint.schedules(k)) in after.schedules)
      && (forall i :: i in after.schedules ==>
          FromSchedule(remap, env.schedules, mint.schedules, i, after.schedules[i].view))
      && (forall k: nat :: k < |env.actions| ==> SlotOf(env.actions[k].id, mint.actions(k)) in after.actions)
      && (forall i :: i in after.actions ==> FromAction(remap, env.actions, mint.actions, i, after.actions[i].view))
      && (forall k: nat :: k < |env.scenes| ==> SlotOf(env.scenes[k].id, mint.scenes(k)) in after.scenes)
      && (forall i :: i in after.scenes ==> FromScene(env.scenes, mint.scenes, i, after.scenes[i].view))
  {
    hide Restore, Run, LoadAll, FromSchedule, FromAction, FromScene;
    RestoredParts(st, env, Replace, user, mint);
    var remap := RemapOf(st, env, Replace, user, mint);
    TableOfItems(user, mint.schedules, ScheduleEntries(remap, env.schedules));
    TableOfItems(user, mint.actions, ActionEntries(remap, env.actions));
    TableOfItems(user, mint.scenes, SceneEntries(env.scenes));
    SchedulesAreSubstituted(st, env, Replace, user, mint);
    ActionsAreSubstituted(st, env, Replace, user, mint);
    ScenesAreRestored(st, env, Replace, user, mint);
  }

  lemma TableOfItems<V(!new)>(user: Id, mint: nat -> Id, entries: seq<Entry<V>>)
    requires LoadAll(map[], Replace, user, mint, entries).Ok?
    ensures |map[] + LoadAll(map[], Replace, user, mint, entries).value.rows| == |entries|
  {
    ReplaceKeepsEachItem(map[], user, mint, entries);
    EmptyOverlay(LoadAll(map[], Replace, user, mint, entries).value.rows);
  }

  lemma EmptyOverlay<V>(m: map<Id, V>)
    ensures map[] + m == m
  {
  }

  // ---------- Hierarchy rows after a replace

  /** The number of entries of one kind. */
  function Count(doc: seq<Step>, kind: Kind): nat
    decreases |doc|
  {
    if doc == [] then 0 else Count(doc[..|doc| - 1], kind) + if doc[|doc| - 1].Kind() == kind then 1 else 0
  }

  lemma AddOne<V>(m: map<Id, V>, i: Id, v: V)
    requires i !in m
    ensures |m[i := v]| == |m| + 1
  {
    assert m[i := v].Keys == m.Keys + {i};
  }

  lemma {:induction false} ReplaceBuildsEachEntry(job: Job, doc: seq<Step>)
    requires job.mode == Replace && Run(job, doc).Ok?
    ensures
      var h := Run(job, doc).value;
      |h.rooms| == Count(doc, RoomKind) && |h.zones| == Count(doc, ZoneKind) && |h.groups| == Count(doc, GroupKind)
    decreases |doc|
  {
    if doc != [] {
      var n := |doc| - 1;
      ReplaceBuildsEachEntry(job, doc[..n]);
      var h, next := Run(job, doc[..n]).value, Run(job, doc).value;
      var i := StepRow(job, h, doc[n], n);
      match doc[n]
      case RoomStep(_) => AddOne(h.rooms, i, next.rooms[i]);
      case ZoneStep(_, _) => AddOne(h.zones, i, next.zones[i]);
      case GroupStep(_) => AddOne(h.groups, i, next.groups[i]);
    }
  }

  ghost function RowsOf(st: Store, kind: Kind): set<Id> {
    match kind
    case RoomKind => st.rooms.Keys
    case ZoneKind => st.zones.Keys
    case GroupKind => st.groups.Keys
  }

  /** The row holds what the entry asks for; a group's members are the devices of the MACs it lists. */
  ghost predicate RowAs(st: Store, s: Step, i: Id) {
    match s
    case RoomStep(r) =>
      i in st.rooms && r.name == Some(st.rooms[i].key) && st.rooms[i].attrs == Look(r.icon, OrElse(r.sortOrder, 0))
    case ZoneStep(_, z) =>
      i in st.zones && z.name == Some(st.zones[i].key.name) && st.zones[i].attrs == Look(z.icon, OrElse(z.sortOrder, 0))
    case GroupStep(g) =>
      && i in st.groups && g.name == Some(st.groups[i].key)
      && st.groups[i].attrs == Roster(Look(g.icon, OrElse(g.sortOrder, 0)), Members(st.devices, g.macs))
  }

  /** The row holds what the last entry stored in it asks for. */
  ghost predicate FromEntry(job: Job, doc: seq<Step>, st: Store, kind: Kind, i: Id)
    requires Run(job, doc).Ok?
  {
    exists k: nat :: k < |doc| && doc[k].Kind() == kind && LastInRow(job, doc, k, i) && RowAs(st, doc[k], i)
  }

  ghost predicate NoEntry(job: Job, doc: seq<Step>, kind: Kind, i: Id)
    requires Run(job, doc).Ok?
  {
    forall k: nat :: k < |doc| && doc[k].Kind() == kind ==> RowOf(job, doc, k) != i
  }

  ghost predicate SameRowIn(a: Store, b: Store, kind: Kind, i: Id) {
    match kind
    case RoomKind => i in a.rooms && i in b.rooms && a.rooms[i] == b.rooms[i]
    case ZoneKind => i in a.zones && i in b.zones && a.zones[i] == b.zones[i]
    case GroupKind => i in a.groups && i in b.groups && a.groups[i] == b.groups[i]
  }

  ghost predicate EndsAs(job: Job, h: Hier, st: Store) {
    && UniqueMacs(job.base.devices) && SameHardware(job.base.devices, st.devices)
    && st.rooms == Rooms(job, h) && st.zones == Zones(job, h) && st.groups == Groups(job, h)
  }

  lemma HeldInStore(job: Job, h: Hier, st: Store, s: Step, i: Id)
    requires EndsAs(job, h, st) && HoldsEntry(job, h, s, i)
    ensures RowAs(st, s, i)
  {
    if s.GroupStep? {
      MembersOfSameHardware(job.base.devices, st.devices, s.group.macs);
    }
  }

  /** After a run, each row holds what the last entry stored in it asks for, or is a row it began with
      that no entry went to; and every entry has its row. */
  lemma RowsAreEntries(job: Job, doc: seq<Step>, st: Store)
    requires Run(job, doc).Ok? && EndsAs(job, Run(job, doc).value, st)
    ensures forall k: nat :: k < |doc| ==> RowOf(job, doc, k) in RowsOf(st, doc[k].Kind())
    ensures forall kind, i :: i in RowsOf(st, kind) ==>
              FromEntry(job, doc, st, kind, i) || (NoEntry(job, doc, kind, i) && SameRowIn(job.base, st, kind, i))
  {
    hide Run, RowOf, HoldsEntry, LastInRow, RowAs;
    var h := Run(job, doc).value;
    forall k: nat | k < |doc| ensures RowOf(job, doc, k) in Written(h, doc[k].Kind()) {
      EntryIsWritten(job, doc, k);
    }
    forall kind, i | i in RowsOf(st, kind)
      ensures FromEntry(job, doc, st, kind, i) || (NoEntry(job, doc, kind, i) && SameRowIn(job.base, st, kind, i))
    {
      if i in Written(h, kind) {
        var k := WrittenByEntry(job, doc, kind, i);
        HeldInStore(job, h, st, doc[k], i);
      }
    }
  }

  /** After any restore, every room, zone and group entry has its row; and every row holds what the last
      entry stored in it asks for, or is a row that a merge kept because no entry went to it. */
  lemma HierarchyIsRestored(st: Store, env: Envelope, mode: Mode, user: Id, mint: Mint)
    requires UniqueMacs(st.devices) && Restore(st, env, mode, user, mint).Ok?
    ensures
      var job, doc, after := HierarchyJob(st, env, mode, mint), Document(env), After(st, env, mode, user, mint);
      && Run(job, doc).Ok?
      && (forall k: nat :: k < |doc| ==> RowOf(job, doc, k) in RowsOf(after, doc[k].Kind()))
      && (forall kind, i :: i in RowsOf(after, kind) ==>
            FromEntry(job, doc, after, kind, i)
                || (mode.Merge? && NoEntry(job, doc, kind, i) && SameRowIn(st, after, kind, i)))
  {
    hide Restore, Run, LoadAll, RowOf, FromEntry, NoEntry;
    RestoredParts(st, env, mode, user, mint);
    RowsAreEntries(HierarchyJob(st, env, mode, mint), Document(env), After(st, env, mode, user, mint));
  }

  /** After a replace there is one room, zone or group row for each entry of the document, holding what the
      entry asks for, and nothing else. */
  lemma ReplaceLeavesTheHierarchy(st: Store, env: Envelope, user: Id, mint: Mint)
    requires UniqueMacs(st.devices) && Restore(st, env, Replace, user, mint).Ok?
    ensures
      var job, doc, after := HierarchyJob(st, env, Replace, mint), Document(env), After(st, env, Replace, user, mint);
      && |after.rooms| == Count(doc, RoomKind) && |after.zones| == Count(doc, ZoneKind)
      && |after.groups| == Count(doc, GroupKind)
      && Run(job, doc).Ok?
      && (forall k: nat :: k < |doc| ==> RowOf(job, doc, k) in RowsOf(after, doc[k].Kind()))
      && (forall kind, i :: i in RowsOf(after, kind) ==> FromEntry(job, doc, after, kind, i))
  {
    hide Restore, Run, LoadAll, FromEntry, NoEntry, RowOf;
    RestoredParts(st, env, Replace, user, mint);
    var job, h := HierarchyJob(st, env, Replace, mint), HierOf(st, env, Replace, user, mint);
    HierarchyIsRestored(st, env, Replace, user, mint);
    ReplaceBuildsEachEntry(job, Document(env));
    EmptyOverlay(h.rooms);
    EmptyOverlay(h.zones);
    EmptyOverlay(h.groups);
  }

  // ---------- Placement

  lemma PlacedCoherent(st: Store, job: Job, h: Hier, d: Device)
    requires forall m :: m in h.log ==> SoundMention(job, h, m)
    requires st.rooms == Rooms(job, h) && st.zones == Zones(job, h) && CoherentDevice(st, d)
    ensures CoherentDevice(st, Placed(d, h.log))
  {
    PlacedFromLog(d, h.log);
    if k :| 0 <= k < |h.log| && h.log[k].mac == d.mac &&
            Placed(d, h.log) == d.(room := Some(h.log[k].room), zone := h.log[k].zone) {
      assert SoundMention(job, h, h.log[k]);
    }
  }

  /** After a replace, every placement exists and every zoned device is in its zone's room. */
  lemma ReplaceIsCoherent(st: Store, env: Envelope, user: Id, mint: Mint)
    requires Restore(st, env, Replace, user, mint).Ok?
    ensures Coherent(After(st, env, Replace, user, mint))
  {
    hide Restore, Run, LoadAll;
    RestoredParts(st, env, Replace, user, mint);
    var job, h, after := HierarchyJob(st, env, Replace, mint), HierOf(st, env, Replace, user, mint),
        After(st, env, Replace, user, mint);
    DocumentNested(env);
    MentionsAreSound(job, Document(env));
    forall d | d in after.devices
      ensures CoherentDevice(after, after.devices[d])
    {
      PlacedCoherent(after, job, h, job.base.devices[d]);
    }
  }

  /** Each device ends where its last mention puts it; a device not mentioned stays where it was in a
      merge and is in no room after a replace. */
  lemma RestoredPlacement(st: Store, env: Envelope, mode: Mode, user: Id, mint: Mint, d: Id)
    requires Restore(st, env, mode, user, mint).Ok? && d in st.devices
    ensures
      var doc, after := Document(env), After(st, env, mode, user, mint).devices[d];
      && (forall k :: LastMentions(doc, k, after.mac) ==> PlacedBy(HierarchyJob(st, env, mode, mint), doc, k, after))
      && ((forall k :: 0 <= k < |doc| ==> after.mac !in doc[k].Macs()) ==>
            if mode.Merge? then after.room == st.devices[d].room && after.zone == st.devices[d].zone
            else after.room == None && after.zone == None)
  {
    hide Restore, Run, LoadAll;
    RestoredParts(st, env, mode, user, mint);
    var job, doc := HierarchyJob(st, env, mode, mint), Document(env);
    var before := job.base.devices[d];
    forall k | LastMentions(doc, k, before.mac)
      ensures PlacedBy(job, doc, k, Placed(before, Run(job, doc).value.log))
    {
      LastMentionWins(job, doc, k, before);
    }
    if forall k :: 0 <= k < |doc| ==> before.mac !in doc[k].Macs() {
      UnmentionedStays(job, doc, before);
    }
  }

  // ---------- Completeness of the remap

  /** The item gives a device known here this backup id. */
  ghost predicate Introduces(devices: map<Id, Device>, item: DeviceItem, x: Id, d: Id) {
    item.id == Some(x) && x != "" && Truthy(item.mac) && Local(devices, item.mac.value) == Some(d)
  }

  /** Of the items that give some device here this backup id, the `k`-th is the last. */
  ghost predicate LastIntroducing(devices: map<Id, Device>, items: seq<DeviceItem>, k: nat, x: Id, d: Id) {
    && k < |items| && Introduces(devices, items[k], x, d)
    && forall j: nat, e :: k < j < |items| ==> !Introduces(devices, items[j], x, e)
  }

  lemma {:induction false} DeviceRemapMeans(devices: map<Id, Device>, items: seq<DeviceItem>, x: Id)
    ensures if x in DeviceRemap(devices, items) then
              exists k: nat :: LastIntroducing(devices, items, k, x, DeviceRemap(devices, items)[x])
            else forall k: nat, d :: k < |items| ==> !Introduces(devices, items[k], x, d)
    decreases |items|
  {
    if items != [] {
      var n := |items| - 1;
      var front := items[..n];
      DeviceRemapMeans(devices, front, x);
      assert forall k: nat, d :: k < n ==>
          (Introduces(devices, front[k], x, d) <==> Introduces(devices, items[k], x, d));
      if x in DeviceRemap(devices, items) {
        var d := DeviceRemap(devices, items)[x];
        if Introduces(devices, items[n], x, d) {
          assert LastIntroducing(devices, items, n, x, d);
        } else {
          var k: nat :| LastIntroducing(devices, front, k, x, d);
          assert LastIntroducing(devices, items, k, x, d);
        }
      }
    }
  }

  lemma HierarchyRemapIsComplete(job: Job, doc: seq<Step>, x: Id)
    requires Run(job, doc).Ok? && WellNested(doc)
    ensures
      var h := Run(job, doc).value;
      && (forall k: nat :: LastWithId(doc, k, x) ==>
          x in h.remap && h.remap[x] == RowOf(job, doc, k) && Names(job, h, doc[k], h.remap[x]))
      && (x in h.remap ==> exists k: nat :: LastWithId(doc, k, x))
  {
    forall k: nat | LastWithId(doc, k, x)
      ensures x in Run(job, doc).value.remap && Run(job, doc).value.remap[x] == RowOf(job, doc, k)
      ensures Names(job, Run(job, doc).value, doc[k], RowOf(job, doc, k))
    {
      RemapFollowsLast(job, doc, k, x);
      RowOfNames(job, doc, k);
    }
    if x in Run(job, doc).value.remap {
      var k := RemapComesFromDocument(job, doc, x);
    }
  }

  ghost predicate IntroducedAs(devices: map<Id, Device>, items: seq<DeviceItem>, x: Id, d: Id) {
    exists k: nat :: LastIntroducing(devices, items, k, x, d)
  }

  /** Where a remap sends a backup id: to the row of the last room, zone or group entry that carries
      it, which has that entry's kind and name; failing that, to the local device with the MAC that
      the last item of the id lists, among those known here; and ids of neither sort are left alone. */
  ghost predicate RemapsTo(job: Job, doc: seq<Step>, devices: map<Id, Device>, items: seq<DeviceItem>, x: Id, y: Id)
    requires Run(job, doc).Ok?
  {
    if exists k: nat :: LastWithId(doc, k, x) then
      exists k: nat :: LastWithId(doc, k, x) && y == RowOf(job, doc, k) && Names(job, Run(job, doc).value, doc[k], y)
    else
      IntroducedAs(devices, items, x, y) ||
      (y == x && forall k: nat, d :: k < |items| ==> !Introduces(devices, items[k], x, d))
  }

  lemma MergedRemap(st: Store, env: Envelope, job: Job, x: Id)
    requires Run(job, Document(env)).Ok?
    ensures RemapsTo(job, Document(env), st.devices, env.devices, x,
                     Subst(IdRemap(st, env, Run(job, Document(env)).value), x))
  {
    DocumentNested(env);
    HierarchyRemapIsComplete(job, Document(env), x);
    DeviceRemapMeans(st.devices, env.devices, x);
    if k: nat :| LastWithId(Document(env), k, x) {
      assert LastWithId(Document(env), k, x);
    }
  }

  /** The merged remap of a restore is complete. */
  lemma RemapIsComplete(st: Store, env: Envelope, mode: Mode, user: Id, mint: Mint, x: Id)
    requires Restore(st, env, mode, user, mint).Ok?
    ensures
      var job, y := HierarchyJob(st, env, mode, mint), Subst(RemapOf(st, env, mode, user, mint), x);
      RemapsTo(job, Document(env), st.devices, env.devices, x, y)
  {
    hide Restore, Run;
    RestoredParts(st, env, mode, user, mint);
    MergedRemap(st, env, HierarchyJob(st, env, mode, mint), x);
  }

  /** The names that `Names` asks for are found in the restored store itself. */
  lemma NamedRowsExist(st: Store, env: Envelope, mode: Mode, user: Id, mint: Mint, s: Step, i: Id)
    requires Restore(st, env, mode, user, mint).Ok?
    requires Names(HierarchyJob(st, env, mode, mint), HierOf(st, env, mode, user, mint), s, i)
    ensures
      var after := After(st, env, mode, user, mint);
      match s
      case RoomStep(r) => i in after.rooms && r.name == Some(after.rooms[i].key)
      case GroupStep(g) => i in after.groups && g.name == Some(after.groups[i].key)
      case ZoneStep(p, z) =>
        && i in after.zones && z.name == Some(after.zones[i].key.name)
        && after.zones[i].key.room in after.rooms && p.name == Some(after.rooms[after.zones[i].key.room].key)
  {
    hide Restore, Run, LoadAll;
    RestoredParts(st, env, mode, user, mint);
  }

  // ---------- The report

  /** The backup ids of the devices known here. */
  ghost function KnownIds(devices: map<Id, Device>, items: seq<DeviceItem>): set<Id> {
    set k | 0 <= k < |items| && items[k].id.Some? && Introduced(devices, items[k]) :: items[k].id.value
  }

  ghost predicate Introduced(devices: map<Id, Device>, item: DeviceItem) {
    exists d :: item.id.Some? && Introduces(devices, item, item.id.value, d)
  }

  lemma RemapsKnownIds(devices: map<Id, Device>, items: seq<DeviceItem>)
    ensures DeviceRemap(devices, items).Keys == KnownIds(devices, items)
  {
    forall x ensures x in DeviceRemap(devices, items) <==> x in KnownIds(devices, items) {
      DeviceRemapMeans(devices, items, x);
      if x in DeviceRemap(devices, items) {
        var k: nat :| LastIntroducing(devices, items, k, x, DeviceRemap(devices, items)[x]);
        assert Introduced(devices, items[k]);
      }
    }
  }

  /** The backup ids that the entries of the hierarchy carry. */
  ghost function CarriedIds(doc: seq<Step>): set<Id> {
    set k | 0 <= k < |doc| && doc[k].Id().Some? && doc[k].Id().value != "" :: doc[k].Id().value
  }

  lemma CarriesOneMore(doc: seq<Step>)
    requires doc != []
    ensures
      var n := |doc| - 1;
      CarriedIds(doc) == CarriedIds(doc[..n]) + if Truthy(doc[n].Id()) then {doc[n].Id().value} else {}
  {
    var n := |doc| - 1;
    assert forall k :: 0 <= k < n ==> doc[..n][k] == doc[k];
  }

  lemma StepRemaps(job: Job, h: Hier, s: Step, n: nat)
    requires Apply(job, h, s, n).Ok?
    ensures Apply(job, h, s, n).value.remap.Keys == h.remap.Keys + if Truthy(s.Id()) then {s.Id().value} else {}
  {
    hide RowFor;
  }

  lemma {:induction false} RemapsCarriedIds(job: Job, doc: seq<Step>)
    requires Run(job, doc).Ok?
    ensures Run(job, doc).value.remap.Keys == CarriedIds(doc)
    decreases |doc|
  {
    hide Apply;
    if doc != [] {
      var n := |doc| - 1;
      RemapsCarriedIds(job, doc[..n]);
      CarriesOneMore(doc);
      StepRemaps(job, Run(job, doc[..n]).value, doc[n], n);
    }
  }

  /** What the report counts: the backup ids of devices known here, those of the hierarchy, and for each of
      the other tables the rows that are new and the items that updated one. */
  lemma ReportAddsUp(st: Store, env: Envelope, mode: Mode, user: Id, mint: Mint)
    requires Restore(st, env, mode, user, mint).Ok?
    ensures
      var after, report := After(st, env, mode, user, mint), Restore(st, env, mode, user, mint).value.1;
      && report.devicesUpdated == |KnownIds(st.devices, env.devices)| && report.remapped == |CarriedIds(Document(env))|
      && |after.schedules| == |Kept(st.schedules, mode)| + report.schedules.created
      && |after.actions| == |Kept(st.actions, mode)| + report.actions.created
      && |after.scenes| == |Kept(st.scenes, mode)| + report.scenes.created
      && report.schedules.created + report.schedules.updated == |env.schedules|
      && report.actions.created + report.actions.updated == |env.actions|
      && report.scenes.created + report.scenes.updated == |env.scenes|
  {
    hide Restore, Run, LoadAll;
    RestoredParts(st, env, mode, user, mint);
    var remap, h := RemapOf(st, env, mode, user, mint), HierOf(st, env, mode, user, mint);
    CreatedIsNew(Kept(st.schedules, mode), mode, user, mint.schedules, ScheduleEntries(remap, env.schedules));
    CreatedIsNew(Kept(st.actions, mode), mode, user, mint.actions, ActionEntries(remap, env.actions));
    CreatedIsNew(Kept(st.scenes, mode), mode, user, mint.scenes, SceneEntries(env.scenes));
    RemapsKnownIds(st.devices, env.devices);
    RemapsCarriedIds(HierarchyJob(st, env, mode, mint), Document(env));
    assert |DeviceRemap(st.devices, env.devices)| == |DeviceRemap(st.devices, env.devices).Keys|;
    assert |h.remap| == |h.remap.Keys|;
  }

  // ---------- The database rules

  ghost predicate Proper(mint: nat -> Id) {
    forall n :: mint(n) != ""
  }

  ghost predicate ProperRows(job: Job, h: Hier) {
    "" !in Rooms(job, h) && "" !in Zones(job, h) && "" !in Groups(job, h)
  }

  lemma StepIdsProper(job: Job, h: Hier, s: Step, n: nat)
    requires Apply(job, h, s, n).Ok? && (Truthy(s.Id()) || job.mint(n) != "") && ProperRows(job, h)
    ensures ProperRows(job, Apply(job, h, s, n).value)
  {
    match s
    case RoomStep(_) => assert StepRow(job, h, s, n) != "";
    case ZoneStep(_, _) => assert StepRow(job, h, s, n) != "";
    case GroupStep(_) => assert StepRow(job, h, s, n) != "";
  }

  lemma {:induction false} RunIdsProper(job: Job, doc: seq<Step>)
    requires Run(job, doc).Ok? && forall k: nat :: k < |doc| ==> Truthy(doc[k].Id()) || job.mint(k) != ""
    requires "" !in job.base.rooms && "" !in job.base.zones && "" !in job.base.groups
    ensures ProperRows(job, Run(job, doc).value)
    decreases |doc|
  {
    if doc != [] {
      var n := |doc| - 1;
      RunIdsProper(job, doc[..n]);
      StepIdsProper(job, Run(job, doc[..n]).value, doc[n], n);
    }
  }

  lemma {:induction false} LoadIdsProper<V(!new)>(base: map<Id, Owned<V>>, mode: Mode, user: Id, mint: nat -> Id,
                                                  entries: seq<Entry<V>>)
    requires LoadAll(base, mode, user, mint, entries).Ok? && Proper(mint) && "" !in base
    ensures "" !in base + LoadAll(base, mode, user, mint, entries).value.rows
    decreases |entries|
  {
    if entries != [] {
      LoadIdsProper(base, mode, user, mint, entries[..|entries| - 1]);
    }
  }

  lemma HierarchyKeepsValid(st: Store, env: Envelope, mode: Mode, mint: Mint)
    requires Valid(st) && Run(HierarchyJob(st, env, mode, mint), Document(env)).Ok? && Proper(mint.hierarchy)
    ensures
      var job := HierarchyJob(st, env, mode, mint);
      var h := Run(job, Document(env)).value;
      && UniqueKeys(Rooms(job, h)) && UniqueKeys(Groups(job, h)) && ProperRows(job, h)
  {
    RunKeepsUnique(HierarchyJob(st, env, mode, mint), Document(env));
    RunIdsProper(HierarchyJob(st, env, mode, mint), Document(env));
  }

  lemma ValidAlike(a: Store, b: Store)
    requires SameHardware(a.devices, b.devices) && UniqueMacs(a.devices) && "" !in a.devices
    requires UniqueKeys(b.rooms) && UniqueKeys(b.groups)
    requires "" !in b.rooms && "" !in b.zones && "" !in b.groups && "" !in b.schedules && "" !in b.actions
        && "" !in b.scenes
    ensures Valid(b)
  {
  }

  /** A restore that succeeds leaves a valid store. */
  lemma RestoreKeepsValid(st: Store, env: Envelope, mode: Mode, user: Id, mint: Mint)
    requires Valid(st) && Restore(st, env, mode, user, mint).Ok?
    requires Proper(mint.hierarchy) && Proper(mint.schedules) && Proper(mint.actions) && Proper(mint.scenes)
    ensures Valid(After(st, env, mode, user, mint))
  {
    hide Restore, Run, LoadAll;
    RestoredParts(st, env, mode, user, mint);
    var remap := RemapOf(st, env, mode, user, mint);
    HierarchyKeepsValid(st, env, mode, mint);
    DevicesArePhysical(st, env, mode, user, mint);
    LoadIdsProper(Kept(st.schedules, mode), mode, user, mint.schedules, ScheduleEntries(remap, env.schedules));
    LoadIdsProper(Kept(st.actions, mode), mode, user, mint.actions, ActionEntries(remap, env.actions));
    LoadIdsProper(Kept(st.scenes, mode), mode, user, mint.scenes, SceneEntries(env.scenes));
    ValidAlike(st, After(st, env, mode, user, mint));
  }
}
