/** Merging the same backup twice. */
module MergeAgain {
  import opened Prelude
  import opened Stores
  import opened Envelopes
  import opened Hierarchy
  import opened HierarchyRerun
  import opened Tables
  import opened Backups

  lemma {:induction false} RenamedOncePlaced(d: Device, items: seq<DeviceItem>, room: Option<Id>, zone: Option<Id>)
    ensures Renamed(Renamed(d, items).(room := room, zone := zone), items) == Renamed(d, items).(room := room,
        zone := zone)
    decreases |items|
  {
    if items != [] {
      RenamedOncePlaced(d, items[..|items| - 1], room, zone);
    }
  }

  lemma {:induction false} RemapOfSameHardware(a: map<Id, Device>, b: map<Id, Device>, items: seq<DeviceItem>)
    requires UniqueMacs(a) && SameHardware(a, b)
    ensures DeviceRemap(a, items) == DeviceRemap(b, items)
    decreases |items|
  {
    if items != [] {
      RemapOfSameHardware(a, b, items[..|items| - 1]);
      var mac := items[|items| - 1].mac;
      if Truthy(mac) {
        LocalOfSameHardware(a, b, mac.value);
      }
    }
  }

  lemma {:induction false} PlacedKeepsRest(d: Device, log: seq<Mention>)
    ensures Placed(d, log) == d.(room := Placed(d, log).room, zone := Placed(d, log).zone)
    decreases |log|
  {
    if log != [] {
      PlacedKeepsRest(d, log[..|log| - 1]);
    }
  }

  lemma DevicesSettle(devices: map<Id, Device>, items: seq<DeviceItem>, log: seq<Mention>)
    ensures
      var once := PlaceAll(RenameAll(devices, items), log);
      PlaceAll(RenameAll(once, items), log) == once
  {
    var once := PlaceAll(RenameAll(devices, items), log);
    forall i | i in devices
      ensures Placed(Renamed(once[i], items), log) == once[i]
    {
      var d := Renamed(devices[i], items);
      PlacedKeepsRest(d, log);
      RenamedOncePlaced(devices[i], items, once[i].room, once[i].zone);
      PlacedTwice(d, log);
    }
  }

  /** Every schedule, quick action and scene of the envelope carries an id. */
  ghost predicate AllCarryIds(env: Envelope) {
    && (forall k :: 0 <= k < |env.schedules| ==> Truthy(env.schedules[k].id))
    && (forall k :: 0 <= k < |env.actions| ==> Truthy(env.actions[k].id))
    && (forall k :: 0 <= k < |env.scenes| ==> Truthy(env.scenes[k].id))
  }

  lemma CarriedIds(env: Envelope, remap: map<Id, Id>)
    ensures AllCarryIds(env) <==>
              CarryIds(ScheduleEntries(remap, env.schedules)) && CarryIds(ActionEntries(remap, env.actions)) &&
              CarryIds(SceneEntries(env.scenes))
  {
    var s, a, c := ScheduleEntries(remap, env.schedules), ActionEntries(remap, env.actions), SceneEntries(env.scenes);
    if CarryIds(s) && CarryIds(a) && CarryIds(c) {
      assert forall k :: 0 <= k < |s| ==> s[k].id == env.schedules[k].id;
      assert forall k :: 0 <= k < |a| ==> a[k].id == env.actions[k].id;
      assert forall k :: 0 <= k < |c| ==> c[k].id == env.scenes[k].id;
    }
  }

  /** The hierarchy part of a second merge repeats the first exactly. */
  lemma HierarchyAgain(st: Store, env: Envelope, user: Id, mint: Mint, redraw: Mint)
    requires Valid(st) && Restore(st, env, Merge, user, mint).Ok?
    ensures
      var once, h := After(st, env, Merge, user, mint), HierOf(st, env, Merge, user, mint);
      && Run(HierarchyJob(once, env, Merge, redraw), Document(env)) == Ok(h)
      && IdRemap(once, env, h) == IdRemap(st, env, h)
      && PlaceAll(Base(once, env, Merge).devices, h.log) == once.devices
  {
    hide Restore, Run, LoadAll;
    RestoredParts(st, env, Merge, user, mint);
    var once, h := After(st, env, Merge, user, mint), HierOf(st, env, Merge, user, mint);
    var job, later := HierarchyJob(st, env, Merge, mint), HierarchyJob(once, env, Merge, redraw);
    var doc := Document(env);
    assert doc[..|doc|] == doc;
    SecondRun(job, later, doc, |doc|);
    RemapOfSameHardware(st.devices, once.devices, env.devices);
    DevicesSettle(st.devices, env.devices, h.log);
  }

  lemma LoadAgainWhole<V(!new)>(base: map<Id, Owned<V>>, user: Id, mint: nat -> Id, entries: seq<Entry<V>>, again: Id,
                                redraw: nat -> Id)
    requires LoadAll(base, Merge, user, mint, entries).Ok?
    ensures
      var rows := LoadAll(base, Merge, user, mint, entries).value.rows;
      var second := LoadAll(base + rows, Merge, again, redraw, entries);
      && (CarryIds(entries) ==> second.Ok? && base + rows + second.value.rows == base + rows)
      && (second.Ok? && base + rows + second.value.rows == base + rows ==> CarryIds(entries))
  {
    var rows := LoadAll(base, Merge, user, mint, entries).value.rows;
    if CarryIds(entries) {
      assert entries[..|entries|] == entries;
      LoadAgain(base, user, mint, entries, again, redraw, |entries|);
    } else if LoadAll(base + rows, Merge, again, redraw, entries).Ok? {
      NoIdAddsRow(base + rows, again, redraw, entries);
    }
  }

  /** The tables matched by id, merged a second time. */
  lemma TablesAgain(st: Store, env: Envelope, user: Id, mint: Mint, again: Id, redraw: Mint)
    requires Valid(st) && Restore(st, env, Merge, user, mint).Ok?
    ensures
      var once, remap := After(st, env, Merge, user, mint), RemapOf(st, env, Merge, user, mint);
      var s := LoadSchedules(once, env, Merge, again, redraw, remap);
      var a := LoadActions(once, env, Merge, again, redraw, remap);
      var c := LoadScenes(once, env, Merge, again, redraw);
      AllCarryIds(env) <==>
        && s.Ok? && once.schedules + s.value.rows == once.schedules
        && a.Ok? && once.actions + a.value.rows == once.actions
        && c.Ok? && once.scenes + c.value.rows == once.scenes
  {
    var remap := RemapOf(st, env, Merge, user, mint);
    CarriedIds(env, remap);
    LoadAgainWhole(st.schedules, user, mint.schedules, ScheduleEntries(remap, env.schedules), again, redraw.schedules);
    LoadAgainWhole(st.actions, user, mint.actions, ActionEntries(remap, env.actions), again, redraw.actions);
    LoadAgainWhole(st.scenes, user, mint.scenes, SceneEntries(env.scenes), again, redraw.scenes);
  }

  lemma OverlayTwice<V>(a: map<Id, V>, b: map<Id, V>)
    ensures (a + b) + b == a + b
  {
  }

  /** Assembling the second merge: only the tables matched by id can differ. */
  lemma AssembleAgain(st: Store, once: Store, env: Envelope, redraw: Mint, h: Hier,
                      s: Load<Schedule>, a: Load<QuickAction>, c: Load<Scene>)
    requires once.rooms == st.rooms + h.rooms && once.zones == st.zones + h.zones && once.groups == st.groups + h.groups
    requires PlaceAll(Base(once, env, Merge).devices, h.log) == once.devices
    ensures Assemble(once, env, Merge, redraw, h, s, a, c).0 ==
            once.(schedules := once.schedules + s.rows, actions := once.actions + a.rows,
                  scenes := once.scenes + c.rows)
  {
    OverlayTwice(st.rooms, h.rooms);
    OverlayTwice(st.zones, h.zones);
    OverlayTwice(st.groups, h.groups);
  }

  lemma SecondMerge(st: Store, once: Store, env: Envelope, again: Id, redraw: Mint, h: Hier)
    requires env.version == BACKUP_VERSION && Run(HierarchyJob(once, env, Merge, redraw), Document(env)) == Ok(h)
    requires once.rooms == st.rooms + h.rooms && once.zones == st.zones + h.zones && once.groups == st.groups + h.groups
    requires PlaceAll(Base(once, env, Merge).devices, h.log) == once.devices
    ensures
      var s := LoadSchedules(once, env, Merge, again, redraw, IdRemap(once, env, h));
      var a := LoadActions(once, env, Merge, again, redraw, IdRemap(once, env, h));
      var c := LoadScenes(once, env, Merge, again, redraw);
      (Restore(once, env, Merge, again, redraw).Ok? && After(once, env, Merge, again, redraw) == once) <==>
        && s.Ok? && once.schedules + s.value.rows == once.schedules
        && a.Ok? && once.actions + a.value.rows == once.actions
        && c.Ok? && once.scenes + c.value.rows == once.scenes
  {
    RestoreParts(once, env, Merge, again, redraw, h);
    var s := LoadSchedules(once, env, Merge, again, redraw, IdRemap(once, env, h));
    var a := LoadActions(once, env, Merge, again, redraw, IdRemap(once, env, h));
    var c := LoadScenes(once, env, Merge, again, redraw);
    if s.Ok? && a.Ok? && c.Ok? {
      AssembleAgain(st, once, env, redraw, h, s.value, a.value, c.value);
    }
  }

  /** Merging a backup a second time, by whomever and whatever ids would be drawn, changes nothing
      exactly when its schedules, quick actions and scenes all carry ids. */
  lemma MergeTwiceIsMergeOnce(st: Store, env: Envelope, user: Id, mint: Mint, again: Id, redraw: Mint)
    requires Valid(st) && Restore(st, env, Merge, user, mint).Ok?
    ensures
      var once := After(st, env, Merge, user, mint);
      AllCarryIds(env) <==>
        Restore(once, env, Merge, again, redraw).Ok? && After(once, env, Merge, again, redraw) == once
  {
    hide Run, LoadAll, Restore;
    RestoredParts(st, env, Merge, user, mint);
    var once, h := After(st, env, Merge, user, mint), HierOf(st, env, Merge, user, mint);
    HierarchyAgain(st, env, user, mint, redraw);
    TablesAgain(st, env, user, mint, again, redraw);
    SecondMerge(st, once, env, again, redraw, h);
  }
}
