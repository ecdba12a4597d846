/** The store that restoring an export in replace mode leaves, in closed form. */
module Mirrors {
  import opened Prelude
  import opened Stores
  import opened Envelopes
  import opened Exports
  import opened Tables
  import opened Backups

  // ---------- Devices

  /** The exported device `x` is known to the other installation by its MAC. */
  ghost predicate KnownTo(src: Store, dst: map<Id, Device>, x: Id) {
    x in src.devices && src.devices[x].mac != "" && Local(dst, src.devices[x].mac).Some?
  }

  ghost function DeviceIds(src: Store, dst: map<Id, Device>): map<Id, Id> {
    map x | x in src.devices && KnownTo(src, dst, x) :: Local(dst, src.devices[x].mac).value
  }

  ghost predicate SomeItem(items: seq<DeviceItem>, x: Id) {
    exists k :: 0 <= k < |items| && items[k].id == Some(x)
  }

  lemma {:induction false} ExportedDeviceRemap(src: Store, dst: map<Id, Device>, items: seq<DeviceItem>, x: Id)
    requires "" !in src.devices
    requires forall k :: 0 <= k < |items| ==> ExportsDevice(src, items[k])
    ensures x in DeviceRemap(dst, items) <==> SomeItem(items, x) && KnownTo(src, dst, x)
    ensures x in DeviceRemap(dst, items) ==> DeviceRemap(dst, items)[x] == Local(dst, src.devices[x].mac).value
    decreases |items|
  {
    if items != [] {
      var n := |items| - 1;
      assert forall k :: 0 <= k < n ==> items[..n][k] == items[k];
      ExportedDeviceRemap(src, dst, items[..n], x);
      assert ExportsDevice(src, items[n]);
      if SomeItem(items, x) && items[n].id != Some(x) {
        var k :| 0 <= k < |items| && items[k].id == Some(x);
        assert items[..n][k].id == Some(x);
      }
      if SomeItem(items[..n], x) {
        var k :| 0 <= k < n && items[..n][k].id == Some(x);
        assert items[k].id == Some(x);
      }
    }
  }

  lemma DeviceRemapOfExport(src: Store, dst: map<Id, Device>, items: seq<DeviceItem>)
    requires "" !in src.devices && ExportsDevices(src, items)
    ensures DeviceRemap(dst, items) == DeviceIds(src, dst)
  {
    forall x
      ensures x in DeviceRemap(dst, items) <==> x in DeviceIds(src, dst)
      ensures x in DeviceRemap(dst, items) ==> DeviceRemap(dst, items)[x] == DeviceIds(src, dst)[x]
    {
      ExportedDeviceRemap(src, dst, items, x);
    }
  }

  /** The name a device takes from an export: the exported one, unless that is empty or the device unknown. */
  ghost function NameFrom(src: Store, d: Device): string {
    var s := Local(src.devices, d.mac);
    if s.Some? && d.mac != "" && src.devices[s.value].name != "" then src.devices[s.value].name else d.name
  }

  lemma {:induction false} RenamedByItems(src: Store, items: seq<DeviceItem>, d: Device)
    requires UniqueMacs(src.devices)
    requires forall k :: 0 <= k < |items| ==> ExportsDevice(src, items[k])
    ensures
      var s := Local(src.devices, d.mac);
      Renamed(d, items).name == if s.Some? && SomeItem(items, s.value) then NameFrom(src, d) else d.name
    decreases |items|
  {
    if items != [] {
      var n := |items| - 1;
      var s := Local(src.devices, d.mac);
      assert forall k :: 0 <= k < n ==> items[..n][k] == items[k];
      RenamedByItems(src, items[..n], d);
      assert ExportsDevice(src, items[n]);
      LocalIs(src.devices, items[n].id.value);
      if s.Some? {
        if SomeItem(items, s.value) && items[n].id != s {
          var k :| 0 <= k < |items| && items[k].id == s;
          assert items[..n][k].id == s;
        }
        if SomeItem(items[..n], s.value) {
          var k :| 0 <= k < n && items[..n][k].id == s;
          assert items[k].id == s;
        }
      }
    }
  }

  lemma RenamedByExport(src: Store, items: seq<DeviceItem>, d: Device)
    requires UniqueMacs(src.devices) && ExportsDevices(src, items)
    ensures Renamed(d, items) == d.(name := NameFrom(src, d))
  {
    RenamedByItems(src, items, d);
    var s := Local(src.devices, d.mac);
    assert s.Some? ==> SomeItem(items, s.value);
  }

  // ---------- The three tables matched by id

  function RemapTargets(remap: map<Id, Id>, ts: seq<Target>): (r: seq<Target>)
    ensures |r| == |ts| && forall k :: 0 <= k < |ts| ==> r[k] == RemapTarget(remap, ts[k])
  {
    seq(|ts|, k requires 0 <= k < |ts| => RemapTarget(remap, ts[k]))
  }

  lemma ReadTargetBack(remap: map<Id, Id>, t: Target)
    ensures ReadTarget(remap, TargetOut(t)) == Ok(RemapTarget(remap, t))
  {
    assert ParseTargetType(TargetTypeName(t.kind)) == Some(t.kind);
  }

  lemma {:induction false} ReadTargetsBack(remap: map<Id, Id>, ts: seq<Target>, n: nat)
    requires n <= |ts|
    ensures ReadTargets(remap, TargetsOut(ts)[..n]) == Ok(RemapTargets(remap, ts)[..n])
    decreases n
  {
    hide ReadTarget, RemapTarget;
    if n > 0 {
      ReadTargetsBack(remap, ts, n - 1);
      ReadTargetBack(remap, ts[n - 1]);
      assert RemapTargets(remap, ts)[..n] == RemapTargets(remap, ts)[..n - 1] + [RemapTarget(remap, ts[n - 1])];
      assert TargetsOut(ts)[..n][..n - 1] == TargetsOut(ts)[..n - 1];
    }
  }

  lemma ReadTriggerBack(t: Trigger)
    ensures ReadTrigger(TriggerOut(t)) == Ok(t)
  {
    assert ParseTriggerType(TriggerTypeName(t.kind)) == Some(t.kind);
  }

  lemma {:induction false} ReadTriggersBack(ts: seq<Trigger>, n: nat)
    requires n <= |ts|
    ensures ReadTriggers(TriggersOut(ts)[..n]) == Ok(ts[..n])
    decreases n
  {
    hide ReadTrigger;
    if n > 0 {
      ReadTriggersBack(ts, n - 1);
      ReadTriggerBack(ts[n - 1]);
      assert ts[..n] == ts[..n - 1] + [ts[n - 1]];
      assert TriggersOut(ts)[..n][..n - 1] == TriggersOut(ts)[..n - 1];
    }
  }

  function RemapSchedule(remap: map<Id, Id>, s: Schedule): Schedule {
    s.(targets := RemapTargets(remap, s.targets))
  }

  function RemapAction(remap: map<Id, Id>, a: QuickAction): QuickAction {
    a.(targets := RemapTargets(remap, a.targets))
  }

  /** Reading an exported schedule gives it back, with its targets remapped and nothing else changed. */
  lemma ReadScheduleBack(remap: map<Id, Id>, id: Id, s: Schedule)
    ensures ScheduleEntry(remap, ScheduleOut(id, s)) == Entry(Some(id), None, Ok(RemapSchedule(remap, s)))
  {
    ReadTargetsBack(remap, s.targets, |s.targets|);
    ReadTriggersBack(s.triggers, |s.triggers|);
    assert TargetsOut(s.targets)[..|s.targets|] == TargetsOut(s.targets);
    assert RemapTargets(remap, s.targets)[..|s.targets|] == RemapTargets(remap, s.targets);
    assert TriggersOut(s.triggers)[..|s.triggers|] == TriggersOut(s.triggers);
    assert s.triggers[..|s.triggers|] == s.triggers;
  }

  lemma ReadActionBack(remap: map<Id, Id>, id: Id, a: QuickAction)
    ensures ActionEntry(remap, ActionOut(id, a)) ==
            Entry(Some(id), if a.targets == [] then Some(NoTargets) else None, Ok(RemapAction(remap, a)))
  {
    ReadTargetsBack(remap, a.targets, |a.targets|);
    assert TargetsOut(a.targets)[..|a.targets|] == TargetsOut(a.targets);
    assert RemapTargets(remap, a.targets)[..|a.targets|] == RemapTargets(remap, a.targets);
  }

  /** The items of a table, read back, are its rows under their ids. */
  ghost predicate ReadsTable<V(!new)>(table: map<Id, Owned<V>>, change: V -> V, entries: seq<Entry<V>>) {
    && (forall k :: 0 <= k < |entries| ==>
         entries[k].id.Some? && entries[k].id.value in table
             && entries[k].view == Ok(change(table[entries[k].id.value].view)))
    && (forall j, k :: 0 <= j < k < |entries| ==> entries[j].id != entries[k].id)
    && (forall i :: i in table ==> exists k :: 0 <= k < |entries| && entries[k].id == Some(i))
  }

  ghost function Rewritten<V(!new)>(table: map<Id, Owned<V>>, base: map<Id, Owned<V>>, change: V -> V,
                                    user: Id): map<Id, Owned<V>> {
    map i | i in table :: Owned(change(table[i].view), if i in base then base[i].createdBy else user)
  }

  lemma {:induction false} EarlyNever<V(!new)>(base: map<Id, Owned<V>>, mode: Mode, user: Id, mint: nat -> Id,
                                               entries: seq<Entry<V>>)
    requires LoadAll(base, mode, user, mint, entries).Ok?
    ensures forall k :: 0 <= k < |entries| ==> entries[k].early.None?
    decreases |entries|
  {
    if entries != [] {
      EarlyNever(base, mode, user, mint, entries[..|entries| - 1]);
    }
  }

  lemma RowOfTable<V(!new)>(table: map<Id, Owned<V>>, change: V -> V, entries: seq<Entry<V>>, rows: map<Id, Owned<V>>,
                            i: Id)
    requires ReadsTable(table, change, entries) && Holds(rows, entries)
    ensures i in rows <==> i in table
    ensures i in table ==> rows[i].view == change(table[i].view)
  {
    if i in rows || i in table {
      var k :| 0 <= k < |entries| && entries[k].id == Some(i);
      assert entries[k].id.value == i;
    }
  }

  lemma RowsOfTable<V(!new)>(table: map<Id, Owned<V>>, base: map<Id, Owned<V>>, change: V -> V, user: Id,
                             entries: seq<Entry<V>>, rows: map<Id, Owned<V>>)
    requires ReadsTable(table, change, entries) && Holds(rows, entries) && base.Keys <= table.Keys
    requires forall i :: i in rows ==> rows[i].createdBy == if i in base then base[i].createdBy else user
    ensures base + rows == Rewritten(table, base, change, user)
  {
    hide ReadsTable, Holds;
    forall i
      ensures i in rows <==> i in table
      ensures i in table ==> rows[i].view == change(table[i].view)
    {
      RowOfTable(table, change, entries, rows, i);
    }
  }

  /** Loading an exported table succeeds exactly when no item is refused, and yields its rows. */
  lemma LoadTable<V(!new)>(table: map<Id, Owned<V>>, base: map<Id, Owned<V>>, change: V -> V, mode: Mode, user: Id,
                           mint: nat -> Id, entries: seq<Entry<V>>)
    requires if mode.Replace? then base == map[] else base == table
    requires "" !in table && ReadsTable(table, change, entries)
    ensures LoadAll(base, mode, user, mint, entries).Ok? <==> forall k :: 0 <= k < |entries| ==> entries[k].early.None?
    ensures LoadAll(base, mode, user, mint, entries).Ok? ==>
              base + LoadAll(base, mode, user, mint, entries).value.rows == Rewritten(table, base, change, user)
  {
    if LoadAll(base, mode, user, mint, entries).Ok? {
      EarlyNever(base, mode, user, mint, entries);
    }
    if forall k :: 0 <= k < |entries| ==> entries[k].early.None? {
      assert Clean(entries);
      LoadClean(base, mode, user, mint, entries);
      RowsOfTable(table, base, change, user, entries, LoadAll(base, mode, user, mint, entries).value.rows);
    }
  }
}
