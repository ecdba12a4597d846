/** Restoring a store's own export changes nothing that an export can show. */
module RoundTrip {
  import opened Prelude
  import opened Stores
  import opened Envelopes
  import opened Exports
  import opened Replay
  import opened Backups
  import opened Mirrors
  import opened RestoreExport

  // ---------- Stores that export alike

  /** Rows matched by id agree except for who created them. */
  ghost predicate SameViews<V(!new)>(a: map<Id, Owned<V>>, b: map<Id, Owned<V>>) {
    a.Keys == b.Keys && forall i :: i in a ==> a[i].view == b[i].view
  }

  ghost predicate SameGroup(a: Store, b: Store, g: Id) {
    && g in a.groups && g in b.groups
    && a.groups[g].key == b.groups[g].key
    && a.groups[g].attrs.look == b.groups[g].attrs.look
    && MacsOf(a, a.groups[g].attrs.members) == MacsOf(b, b.groups[g].attrs.members)
  }

  /** Everything an export reads is the same in both stores. */
  ghost predicate SameView(a: Store, b: Store) {
    && SameHardware(a.devices, b.devices)
    && (forall d :: d in a.devices ==> a.devices[d].name == b.devices[d].name)
    && a.rooms == b.rooms
    && ShownZones(a) == ShownZones(b)
    && a.groups.Keys == b.groups.Keys
    && (forall g :: g in a.groups ==> SameGroup(a, b, g))
    && (forall r :: r in a.rooms ==> MacsOf(a, UnzonedIn(a, r)) == MacsOf(b, UnzonedIn(b, r)))
    && (forall z :: z in ShownZones(a) ==> MacsOf(a, InZone(a, z)) == MacsOf(b, InZone(b, z)))
    && SameViews(a.schedules, b.schedules)
    && SameViews(a.actions, b.actions)
    && SameViews(a.scenes, b.scenes)
  }

  lemma SameViewZones(a: Store, b: Store, r: Id, zones: seq<ZoneItem>)
    requires SameView(a, b) && r in a.rooms && ExportsZones(a, r, zones)
    ensures ExportsZones(b, r, zones)
  {
    forall k | 0 <= k < |zones|
      ensures ExportsZone(b, r, zones[k])
    {
      assert ExportsZone(a, r, zones[k]);
      var z := zones[k].id.value;
      assert z in ShownZones(a) && ShownZones(a)[z] == ShownZones(b)[z];
    }
    forall z | z in b.zones && b.zones[z].key.room == r
      ensures exists k :: 0 <= k < |zones| && zones[k].id == Some(z)
    {
      assert z in ShownZones(b);
      assert z in ShownZones(a) && ShownZones(a)[z] == ShownZones(b)[z];
    }
  }

  lemma SameViewRooms(a: Store, b: Store, rooms: seq<RoomItem>)
    requires SameView(a, b) && ExportsRooms(a, rooms)
    ensures ExportsRooms(b, rooms)
  {
    forall k | 0 <= k < |rooms|
      ensures ExportsRoom(b, rooms[k])
    {
      assert ExportsRoom(a, rooms[k]);
      SameViewZones(a, b, rooms[k].id.value, rooms[k].zones);
    }
  }

  lemma SameViewExport(a: Store, b: Store, env: Envelope)
    requires SameView(a, b) && IsExport(a, env)
    ensures IsExport(b, env)
  {
    SameViewRooms(a, b, env.rooms);
    forall k | 0 <= k < |env.devices|
      ensures ExportsDevice(b, env.devices[k])
    {
      assert ExportsDevice(a, env.devices[k]);
    }
    forall k | 0 <= k < |env.groups|
      ensures ExportsGroup(b, env.groups[k])
    {
      assert ExportsGroup(a, env.groups[k]);
      assert SameGroup(a, b, env.groups[k].id.value);
    }
  }

  lemma SameViewSymmetric(a: Store, b: Store)
    requires SameView(a, b)
    ensures SameView(b, a)
  {
    forall g | g in b.groups ensures SameGroup(b, a, g) {
      assert SameGroup(a, b, g);
    }
  }

  // ---------- The remap of an own export is the identity

  lemma OwnRemapIsIdentity(src: Store, x: Id)
    requires Valid(src)
    ensures Subst(ExportRemap(src, src.devices), x) == x
  {
    if x in src.devices {
      LocalIs(src.devices, x);
    }
  }

  lemma OwnTargetsUnchanged(src: Store, ts: seq<Target>)
    requires Valid(src)
    ensures RemapTargets(ExportRemap(src, src.devices), ts) == ts
  {
    var remap := ExportRemap(src, src.devices);
    forall x ensures Subst(remap, x) == x {
      OwnRemapIsIdentity(src, x);
    }
    forall k | 0 <= k < |ts|
      ensures RemapTarget(remap, ts[k]) == ts[k]
    {
      if ts[k].excludes.Some? {
        assert SubstAll(remap, ts[k].excludes.value) == ts[k].excludes.value;
      }
    }
  }

  // ---------- The restored store exports alike

  /** Where the import leaves a device of the store that was exported. */
  ghost predicate Resettles(src: Store, mode: Mode, before: Device, after: Device) {
    && after.mac == before.mac && after.name == before.name
    && if ShownRoom(src, before).Some? || mode.Replace? then
         after.room == ShownRoom(src, before) && after.zone == ShownZone(src, before)
       else after == before
  }

  lemma RestoredDevice(src: Store, mode: Mode, user: Id, d: Id)
    requires Valid(src) && d in src.devices
    ensures Resettles(src, mode, src.devices[d], Restored(src, src, mode, user).devices[d])
  {
    LocalIs(src.devices, d);
  }

  lemma ResettledAlike(src: Store, mode: Mode, before: Device, after: Device)
    requires Resettles(src, mode, before, after)
    ensures forall r :: r in src.rooms ==>
              ((after.room == Some(r) && after.zone == None) <==> (before.room == Some(r) && before.zone == None))
    ensures forall z :: z in ShownZones(src) ==> (after.zone == Some(z) <==> before.zone == Some(z))
  {
  }

  lemma RestoredPlacement(src: Store, mode: Mode, user: Id)
    requires Valid(src)
    ensures
      var after := Restored(src, src, mode, user);
      && (forall r :: r in src.rooms ==> MacsOf(src, UnzonedIn(src, r)) == MacsOf(after, UnzonedIn(after, r)))
      && (forall z :: z in ShownZones(src) ==> MacsOf(src, InZone(src, z)) == MacsOf(after, InZone(after, z)))
  {
    var after := Restored(src, src, mode, user);
    forall d | d in src.devices
      ensures Resettles(src, mode, src.devices[d], after.devices[d])
    {
      RestoredDevice(src, mode, user, d);
    }
    PlacementAlike(src, mode, after);
  }

  lemma PlacementAlike(src: Store, mode: Mode, after: Store)
    requires src.devices.Keys == after.devices.Keys
    requires forall d :: d in src.devices ==> Resettles(src, mode, src.devices[d], after.devices[d])
    ensures forall r :: r in src.rooms ==> MacsOf(src, UnzonedIn(src, r)) == MacsOf(after, UnzonedIn(after, r))
    ensures forall z :: z in ShownZones(src) ==> MacsOf(src, InZone(src, z)) == MacsOf(after, InZone(after, z))
  {
    forall d | d in src.devices {
      ResettledAlike(src, mode, src.devices[d], after.devices[d]);
    }
    forall r | r in src.rooms ensures MacsOf(src, UnzonedIn(src, r)) == MacsOf(after, UnzonedIn(after, r)) {
      assert UnzonedIn(src, r) == UnzonedIn(after, r);
    }
    forall z | z in ShownZones(src) ensures MacsOf(src, InZone(src, z)) == MacsOf(after, InZone(after, z)) {
      assert InZone(src, z) == InZone(after, z);
    }
  }

  lemma RestoredGroups(src: Store, mode: Mode, user: Id, g: Id)
    requires Valid(src) && g in src.groups
    ensures SameGroup(src, Restored(src, src, mode, user), g)
  {
    var after, members := Restored(src, src, mode, user), src.groups[g].attrs.members;
    forall d | d in src.devices {
      RestoredDevice(src, mode, user, d);
    }
    forall mac
      ensures mac in MacsOf(src, members) <==> mac in MacsOf(after, Carry(src, src.devices, members))
    {
      if mac in MacsOf(src, members) {
        var d :| d in members && d in src.devices && src.devices[d].mac == mac;
        assert d in Carry(src, src.devices, members);
      }
    }
  }

  lemma RestoredTables(src: Store, mode: Mode, user: Id)
    requires Valid(src)
    ensures
      var after := Restored(src, src, mode, user);
      SameViews(src.schedules, after.schedules) && SameViews(src.actions, after.actions)
          && SameViews(src.scenes, after.scenes)
  {
    forall i | i in src.schedules ensures RemapSchedule(ExportRemap(src, src.devices),
                                                        src.schedules[i].view) == src.schedules[i].view {
      OwnTargetsUnchanged(src, src.schedules[i].view.targets);
    }
    forall i | i in src.actions ensures RemapAction(ExportRemap(src, src.devices),
                                                    src.actions[i].view) == src.actions[i].view {
      OwnTargetsUnchanged(src, src.actions[i].view.targets);
    }
  }

  lemma RestoredFrame(src: Store, mode: Mode, user: Id)
    ensures
      var after := Restored(src, src, mode, user);
      && SameHardware(src.devices, after.devices)
      && src.rooms == after.rooms && ShownZones(src) == ShownZones(after) && src.groups.Keys == after.groups.Keys
  {
  }

  lemma RestoredView(src: Store, mode: Mode, user: Id)
    requires Valid(src)
    ensures SameView(src, Restored(src, src, mode, user))
  {
    var after := Restored(src, src, mode, user);
    RestoredFrame(src, mode, user);
    RestoredPlacement(src, mode, user);
    RestoredTables(src, mode, user);
    forall g | g in src.groups ensures SameGroup(src, after, g) {
      RestoredGroups(src, mode, user, g);
    }
    forall d | d in src.devices ensures src.devices[d].name == after.devices[d].name {
      RestoredDevice(src, mode, user, d);
    }
  }

  lemma ExportsOfRestored(src: Store, mode: Mode, user: Id, env: Envelope)
    requires Valid(src)
    ensures IsExport(Restored(src, src, mode, user), env) <==> IsExport(src, env)
  {
    var after := Restored(src, src, mode, user);
    RestoredView(src, mode, user);
    SameViewSymmetric(src, after);
    if IsExport(src, env) {
      SameViewExport(src, after, env);
    }
    if IsExport(after, env) {
      SameViewExport(after, src, env);
    }
  }

  /** Replacing a store by its own export: it succeeds exactly when every quick action has a target,
      and what can be exported afterwards is exactly what could be exported before. */
  lemma ReplaceRoundTrip(src: Store, env: Envelope, user: Id, mint: Mint, again: Envelope)
    requires Valid(src) && IsExport(src, env)
    ensures Restore(src, env, Replace, user, mint).Ok? <==> AllHaveTargets(src.actions)
    ensures Restore(src, env, Replace, user, mint).Ok? ==>
              (IsExport(After(src, env, Replace, user, mint), again) <==> IsExport(src, again))
  {
    ReplaceWithExport(src, src, env, user, mint);
    ExportsOfRestored(src, Replace, user, again);
  }

  /** Merging a store's own export back into it is likewise invisible. */
  lemma MergeRoundTrip(src: Store, env: Envelope, user: Id, mint: Mint, again: Envelope)
    requires Valid(src) && IsExport(src, env)
    ensures Restore(src, env, Merge, user, mint).Ok? <==> AllHaveTargets(src.actions) && UniqueZones(src)
    ensures Restore(src, env, Merge, user, mint).Ok? ==>
              (IsExport(After(src, env, Merge, user, mint), again) <==> IsExport(src, again))
  {
    MergeOwnExport(src, env, user, mint);
    ExportsOfRestored(src, Merge, user, again);
  }
}
