/** Targets: the devices a target resolves to, and what a restore on another installation does to that meaning. */
module Meaning {
  import opened Prelude
  import opened Stores
  import opened Envelopes
  import opened Exports
  import opened Replay
  import opened Backups
  import opened Mirrors
  import opened RestoreExport

  /** The device ids a target stands for. A device target stands for its id, known or not. */
  ghost function Resolve(st: Store, kind: TargetType, id: Option<Id>, excludes: Option<seq<Id>>): set<Id> {
    match kind
    case All => st.devices.Keys
    case AllExcept => st.devices.Keys - set x | x in OrElse(excludes, [])
    case OneDevice => if Truthy(id) then {id.value} else {}
    case OneRoom => if Truthy(id) then set d | d in st.devices && st.devices[d].room == id else {}
    case OneZone => if Truthy(id) then set d | d in st.devices && st.devices[d].zone == id else {}
    case OneGroup => if Truthy(id) && id.value in st.groups then st.groups[id.value].attrs.members * st.devices.Keys
        else {}
  }

  /** The physical devices a target addresses; its users skip ids of devices that do not exist. */
  ghost function Addressed(st: Store, t: Target): set<Mac> {
    MacsOf(st, Resolve(st, t.kind, t.id, t.excludes))
  }

  ghost function AllMacs(st: Store): (r: set<Mac>)
    ensures forall mac :: mac in r <==> exists d :: d in st.devices && st.devices[d].mac == mac
  {
    set d | d in st.devices :: st.devices[d].mac
  }

  ghost function ExcludedMacs(src: Store, t: Target): set<Mac> {
    MacsOf(src, set x | x in OrElse(t.excludes, []))
  }

  /** What a target of `src` ought to address on `dst`. */
  ghost function Intended(src: Store, dst: Store, t: Target): set<Mac> {
    match t.kind
    case All => AllMacs(dst)
    case AllExcept => AllMacs(dst) - ExcludedMacs(src, t)
    case _ => Addressed(src, t) * AllMacs(dst)
  }

  ghost predicate Grouping(kind: TargetType) {
    kind.OneRoom? || kind.OneZone? || kind.OneGroup?
  }

  /** Device `s` belongs to the room, zone or group `id`. */
  ghost predicate Belongs(src: Store, kind: TargetType, id: Id, s: Id) {
    && s in src.devices
    && match kind
       case OneRoom => src.devices[s].room == Some(id)
       case OneZone => src.devices[s].zone == Some(id)
       case OneGroup => id in src.groups && s in src.groups[id].attrs.members
       case _ => false
  }

  lemma AddressedBelongs(st: Store, t: Target, mac: Mac)
    requires Grouping(t.kind)
    ensures mac in Addressed(st, t) <==>
        Truthy(t.id) && exists d :: Belongs(st, t.kind, t.id.value, d) && d in st.devices && st.devices[d].mac == mac
  {
    if d :| Truthy(t.id) && Belongs(st, t.kind, t.id.value, d) && st.devices[d].mac == mac {
      assert d in Resolve(st, t.kind, t.id, t.excludes);
    }
  }

  // ---------- Whatever the restore: `after` holds the devices of `dst`, and ids were replaced by `remap`

  /** The restored target addresses what it ought to. */
  ghost predicate Means(src: Store, dst: Store, after: Store, remap: map<Id, Id>, t: Target) {
    Addressed(after, RemapTarget(remap, t)) == Intended(src, dst, t)
  }

  /** The id `y`, here, stands for the device that `x` stood for there, if that is here at all. */
  ghost predicate SameDevice(src: Store, dst: Store, x: Id, y: Id) {
    if y in dst.devices then x in src.devices && src.devices[x].mac == dst.devices[y].mac
    else x in src.devices ==> Local(dst.devices, src.devices[x].mac).None?
  }

  ghost function JustDevice(st: Store, x: Id): set<Mac> {
    if x in st.devices then {st.devices[x].mac} else {}
  }

  lemma AddressedDevice(st: Store, t: Target, x: Id)
    requires t.kind == OneDevice && t.id == Some(x) && "" !in st.devices
    ensures Addressed(st, t) == JustDevice(st, x)
  {
  }

  lemma JustDevices(src: Store, dst: Store, after: Store, x: Id, y: Id)
    requires SameHardware(dst.devices, after.devices)
    ensures JustDevice(after, y) == JustDevice(src, x) * AllMacs(dst) <==> SameDevice(src, dst, x, y)
  {
    if y in dst.devices {
      assert dst.devices[y].mac in JustDevice(after, y);
    } else if x in src.devices && Local(dst.devices, src.devices[x].mac).Some? {
      assert src.devices[x].mac in JustDevice(src, x) * AllMacs(dst);
    }
  }

  lemma DeviceMeans(src: Store, dst: Store, after: Store, remap: map<Id, Id>, t: Target)
    requires "" !in src.devices && "" !in dst.devices && SameHardware(dst.devices, after.devices)
    requires t.kind == OneDevice && Truthy(t.id)
    ensures Means(src, dst, after, remap, t) <==> SameDevice(src, dst, t.id.value, Subst(remap, t.id.value))
  {
    var x, y := t.id.value, Subst(remap, t.id.value);
    AddressedDevice(after, RemapTarget(remap, t), y);
    AddressedDevice(src, t, x);
    JustDevices(src, dst, after, x, y);
  }

  lemma AllMeans(src: Store, dst: Store, after: Store, remap: map<Id, Id>, t: Target)
    requires SameHardware(dst.devices, after.devices) && t.kind == All
    ensures Means(src, dst, after, remap, t)
  {
    forall mac ensures mac in MacsOf(after, after.devices.Keys) <==> mac in AllMacs(dst) {
      if d :| d in dst.devices && dst.devices[d].mac == mac {
        assert d in after.devices.Keys && after.devices[d].mac == mac;
      }
    }
  }

  /** The ids that an exclusion list becomes. */
  ghost function Image(remap: map<Id, Id>, excludes: Option<seq<Id>>): (r: set<Id>)
    ensures forall y :: y in r <==> exists x :: x in OrElse(excludes, []) && Subst(remap, x) == y
  {
    set x | x in OrElse(excludes, []) :: Subst(remap, x)
  }

  lemma RemappedExcludes(remap: map<Id, Id>, excludes: Option<seq<Id>>, y: Id)
    ensures y in OrElse(RemapExcludes(remap, excludes), []) <==> y in Image(remap, excludes)
  {
    if excludes.Some? {
      var xs := excludes.value;
      if k :| 0 <= k < |xs| && Subst(remap, xs[k]) == y {
        assert SubstAll(remap, xs)[k] == y;
      }
      if k :| 0 <= k < |SubstAll(remap, xs)| && SubstAll(remap, xs)[k] == y {
        assert xs[k] in OrElse(excludes, []);
      }
    }
  }

  /** The exclusion list, here, holds exactly the local devices that it excluded there. */
  ghost predicate SameExcludes(src: Store, dst: Store, remap: map<Id, Id>, t: Target) {
    forall d :: d in dst.devices ==> (d in Image(remap, t.excludes) <==> dst.devices[d].mac in ExcludedMacs(src, t))
  }

  lemma AddressedExcept(st: Store, t: Target, d: Id)
    requires UniqueMacs(st.devices) && t.kind == AllExcept && d in st.devices
    ensures st.devices[d].mac in Addressed(st, t) <==> d !in OrElse(t.excludes, [])
  {
    if d !in OrElse(t.excludes, []) {
      assert d in Resolve(st, t.kind, t.id, t.excludes);
    }
  }

  lemma ExceptOne(src: Store, dst: Store, after: Store, remap: map<Id, Id>, t: Target, d: Id)
    requires UniqueMacs(dst.devices) && SameHardware(dst.devices, after.devices) && t.kind == AllExcept
        && d in dst.devices
    ensures dst.devices[d].mac in Addressed(after, RemapTarget(remap, t)) <==> d !in Image(remap, t.excludes)
    ensures dst.devices[d].mac in Intended(src, dst, t) <==> dst.devices[d].mac !in ExcludedMacs(src, t)
  {
    AddressedExcept(after, RemapTarget(remap, t), d);
    RemappedExcludes(remap, t.excludes, d);
  }

  lemma ExceptMeans(src: Store, dst: Store, after: Store, remap: map<Id, Id>, t: Target)
    requires UniqueMacs(dst.devices) && SameHardware(dst.devices, after.devices) && t.kind == AllExcept
    ensures Means(src, dst, after, remap, t) <==> SameExcludes(src, dst, remap, t)
  {
    hide Image, ExcludedMacs;
    var reached, meant := Addressed(after, RemapTarget(remap, t)), Intended(src, dst, t);
    assert reached <= AllMacs(dst) && meant <= AllMacs(dst);
    forall d | d in dst.devices
      ensures dst.devices[d].mac in reached <==> d !in Image(remap, t.excludes)
      ensures dst.devices[d].mac in meant <==> dst.devices[d].mac !in ExcludedMacs(src, t)
    {
      ExceptOne(src, dst, after, remap, t, d);
    }
    hide Addressed, Intended;
    if SameExcludes(src, dst, remap, t) {
      forall mac | mac in AllMacs(dst) ensures mac in reached <==> mac in meant {
        var d :| d in dst.devices && dst.devices[d].mac == mac;
      }
      assert reached == meant;
    }
  }

  /** The devices of the row `y`, here, are those that belonged to `x` there. */
  ghost predicate SameMembers(src: Store, dst: Store, after: Store, kind: TargetType, x: Id, y: Id) {
    forall d :: d in dst.devices ==>
      (Belongs(after, kind, y, d) <==>
        Local(src.devices, dst.devices[d].mac).Some?
            && Belongs(src, kind, x, Local(src.devices, dst.devices[d].mac).value))
  }

  lemma GroupedHere(dst: Store, after: Store, t: Target, d: Id)
    requires UniqueMacs(dst.devices) && SameHardware(dst.devices, after.devices) && Grouping(t.kind) && d in dst.devices
    ensures dst.devices[d].mac in Addressed(after, t) <==> Truthy(t.id) && Belongs(after, t.kind, t.id.value, d)
  {
    AddressedBelongs(after, t, dst.devices[d].mac);
  }

  lemma GroupedThere(src: Store, dst: Store, t: Target, d: Id)
    requires UniqueMacs(src.devices) && Grouping(t.kind) && Truthy(t.id) && d in dst.devices
    ensures
      var s := Local(src.devices, dst.devices[d].mac);
      dst.devices[d].mac in Addressed(src, t) <==> s.Some? && Belongs(src, t.kind, t.id.value, s.value)
  {
    AddressedBelongs(src, t, dst.devices[d].mac);
  }

  lemma GroupingMeans(src: Store, dst: Store, after: Store, remap: map<Id, Id>, t: Target)
    requires UniqueMacs(src.devices) && UniqueMacs(dst.devices) && SameHardware(dst.devices, after.devices)
    requires Grouping(t.kind) && Truthy(t.id) && Subst(remap, t.id.value) != ""
    ensures Means(src, dst, after, remap, t) <==>
        SameMembers(src, dst, after, t.kind, t.id.value, Subst(remap, t.id.value))
  {
    hide Belongs;
    var t' := RemapTarget(remap, t);
    var reached, meant := Addressed(after, t'), Addressed(src, t);
    assert reached <= AllMacs(dst);
    forall d | d in dst.devices
      ensures dst.devices[d].mac in reached <==> Belongs(after, t.kind, t'.id.value, d)
      ensures dst.devices[d].mac in meant <==>
                Local(src.devices, dst.devices[d].mac).Some?
                    && Belongs(src, t.kind, t.id.value, Local(src.devices, dst.devices[d].mac).value)
    {
      GroupedHere(dst, after, t', d);
      GroupedThere(src, dst, t, d);
    }
    hide Addressed;
    if SameMembers(src, dst, after, t.kind, t.id.value, t'.id.value) {
      forall mac | mac in AllMacs(dst) ensures mac in reached <==> mac in meant {
        var d :| d in dst.devices && dst.devices[d].mac == mac;
      }
      assert reached == meant * AllMacs(dst);
    } else {
      var d :| d in dst.devices && (dst.devices[d].mac in reached) != (dst.devices[d].mac in meant);
      assert dst.devices[d].mac in AllMacs(dst);
    }
  }

  // ---------- Replacing a store by an export of another

  /** The restored target addresses, on the restored store, what it ought to. */
  ghost predicate Preserved(src: Store, dst: Store, user: Id, t: Target) {
    Means(src, dst, Mirror(src, dst, user), ExportRemap(src, dst.devices), t)
  }

  /** The backup device `x` is known here, and its id is not also that of a room, zone or group. */
  ghost predicate Remapped(src: Store, dst: Store, x: Id) {
    KnownTo(src, dst.devices, x) && x !in HierarchyIds(src)
  }

  /** What a backup id becomes. */
  ghost function Lands(src: Store, dst: Store, x: Id): Id {
    if Remapped(src, dst, x) then Local(dst.devices, src.devices[x].mac).value else x
  }

  /** Device `s` is exported in the room, zone or group `id`. */
  ghost predicate ShownIn(src: Store, kind: TargetType, id: Id, s: Id) {
    && s in src.devices
    && match kind
       case OneRoom => ShownRoom(src, src.devices[s]) == Some(id)
       case OneZone => ShownZone(src, src.devices[s]) == Some(id)
       case OneGroup => id in src.groups && s in src.groups[id].attrs.members
       case _ => false
  }

  /** When the meaning survives a replace. A device id must not come to stand for another device; an
      excluded device that is known here must stay excluded; and the devices known here must be exported
      in the row that the target comes to name exactly when they belonged to the one it named. */
  ghost predicate Keeps(src: Store, dst: Store, t: Target) {
    match t.kind
    case All => true
    case OneDevice => Truthy(t.id) ==> Remapped(src, dst, t.id.value) || SameDevice(src, dst, t.id.value, t.id.value)
    case AllExcept =>
      forall x :: x in OrElse(t.excludes, []) && !Remapped(src, dst, x) ==>
        && (x in dst.devices ==> dst.devices[x].mac in ExcludedMacs(src, t))
        && (x in src.devices && Local(dst.devices, src.devices[x].mac).Some? ==>
              var d := Local(dst.devices, src.devices[x].mac).value;
              d in OrElse(t.excludes, []) && !Remapped(src, dst, d))
    case _ =>
      Truthy(t.id) ==>
        forall s :: s in src.devices && Local(dst.devices, src.devices[s].mac).Some? ==>
          (ShownIn(src, t.kind, Lands(src, dst, t.id.value), s) <==> Belongs(src, t.kind, t.id.value, s))
  }

  lemma SubstLands(src: Store, dst: Store, x: Id)
    ensures Subst(ExportRemap(src, dst.devices), x) == Lands(src, dst, x)
    ensures Valid(dst) && x != "" ==> Lands(src, dst, x) != ""
  {
  }

  lemma MirrorHardware(src: Store, dst: Store, user: Id)
    ensures SameHardware(dst.devices, Mirror(src, dst, user).devices)
  {
  }

  lemma ExcludeLands(src: Store, dst: Store, t: Target, d: Id)
    ensures d in Image(ExportRemap(src, dst.devices), t.excludes) <==>
        exists x :: x in OrElse(t.excludes, []) && Lands(src, dst, x) == d
  {
    forall x ensures Subst(ExportRemap(src, dst.devices), x) == Lands(src, dst, x) {
      SubstLands(src, dst, x);
    }
    if x :| x in OrElse(t.excludes, []) && Lands(src, dst, x) == d {
      assert Subst(ExportRemap(src, dst.devices), x) == d;
    }
  }

  lemma ImageKept(src: Store, dst: Store, t: Target, x: Id)
    requires Valid(src) && Valid(dst) && t.kind == AllExcept && SameExcludes(src, dst, ExportRemap(src, dst.devices), t)
    requires x in OrElse(t.excludes, []) && !Remapped(src, dst, x)
    ensures x in dst.devices ==> dst.devices[x].mac in ExcludedMacs(src, t)
    ensures x in src.devices && Local(dst.devices, src.devices[x].mac).Some? ==>
              var d := Local(dst.devices, src.devices[x].mac).value;
              d in OrElse(t.excludes, []) && !Remapped(src, dst, d)
  {
    hide Image, SubstAll;
    ExcludeLands(src, dst, t, x);
    if x in src.devices && Local(dst.devices, src.devices[x].mac).Some? {
      var d := Local(dst.devices, src.devices[x].mac).value;
      ExcludeLands(src, dst, t, d);
      assert dst.devices[d].mac in ExcludedMacs(src, t);
    }
  }

  lemma KeptImage(src: Store, dst: Store, t: Target, d: Id)
    requires Valid(src) && Valid(dst) && t.kind == AllExcept && Keeps(src, dst, t) && d in dst.devices
    ensures d in Image(ExportRemap(src, dst.devices), t.excludes) <==> dst.devices[d].mac in ExcludedMacs(src, t)
  {
    hide Image, SubstAll;
    ExcludeLands(src, dst, t, d);
    LocalIs(dst.devices, d);
    if x :| x in OrElse(t.excludes, []) && x in src.devices && src.devices[x].mac == dst.devices[d].mac {
      assert Lands(src, dst, x) == d || Lands(src, dst, d) == d;
    }
  }

  lemma ExceptKeeps(src: Store, dst: Store, t: Target)
    requires Valid(src) && Valid(dst) && t.kind == AllExcept
    ensures SameExcludes(src, dst, ExportRemap(src, dst.devices), t) <==> Keeps(src, dst, t)
  {
    if SameExcludes(src, dst, ExportRemap(src, dst.devices), t) {
      hide Valid, SameExcludes;
      forall x | x in OrElse(t.excludes, []) && !Remapped(src, dst, x)
        ensures x in dst.devices ==> dst.devices[x].mac in ExcludedMacs(src, t)
        ensures x in src.devices && Local(dst.devices, src.devices[x].mac).Some? ==>
                  var d := Local(dst.devices, src.devices[x].mac).value;
                  d in OrElse(t.excludes, []) && !Remapped(src, dst, d)
      {
        ImageKept(src, dst, t, x);
      }
    }
    if Keeps(src, dst, t) {
      hide Valid, Keeps;
      forall d | d in dst.devices
        ensures d in Image(ExportRemap(src, dst.devices), t.excludes) <==> dst.devices[d].mac in ExcludedMacs(src, t)
      {
        KeptImage(src, dst, t, d);
      }
    }
  }

  lemma CarriedMember(src: Store, dst: Store, members: set<Id>, d: Id)
    requires UniqueMacs(src.devices) && d in dst.devices
    ensures
      var s := Local(src.devices, dst.devices[d].mac);
      d in Carry(src, dst.devices, members) <==> s.Some? && s.value in members
  {
    assert d in Carry(src, dst.devices, members) <==> dst.devices[d].mac in MacsOf(src, members);
    if dst.devices[d].mac in MacsOf(src, members) {
      var m :| m in members && m in src.devices && src.devices[m].mac == dst.devices[d].mac;
      LocalIs(src.devices, m);
    }
  }

  /** After the replace, a device of `dst` belongs where its counterpart in `src` was exported. */
  lemma BelongsAfter(src: Store, dst: Store, user: Id, kind: TargetType, y: Id, d: Id)
    requires UniqueMacs(src.devices) && d in dst.devices && Grouping(kind)
    ensures Belongs(Mirror(src, dst, user), kind, y, d) <==>
            Local(src.devices, dst.devices[d].mac).Some?
                && ShownIn(src, kind, y, Local(src.devices, dst.devices[d].mac).value)
  {
    if kind.OneGroup? {
      if y in src.groups {
        CarriedMember(src, dst, src.groups[y].attrs.members, d);
      }
    }
  }

  lemma GroupingKeeps(src: Store, dst: Store, user: Id, t: Target)
    requires Valid(src) && Valid(dst) && Grouping(t.kind) && Truthy(t.id)
    ensures SameMembers(src, dst, Mirror(src, dst, user), t.kind, t.id.value, Lands(src, dst, t.id.value)) <==>
        Keeps(src, dst, t)
  {
    hide Lands, Belongs, ShownIn, Mirror;
    var x, y := t.id.value, Lands(src, dst, t.id.value);
    forall d | d in dst.devices
      ensures Belongs(Mirror(src, dst, user), t.kind, y, d) <==>
              Local(src.devices, dst.devices[d].mac).Some?
                  && ShownIn(src, t.kind, y, Local(src.devices, dst.devices[d].mac).value)
    {
      BelongsAfter(src, dst, user, t.kind, y, d);
    }
    assert UniqueMacs(src.devices) && UniqueMacs(dst.devices);
    hide Valid;
    if Keeps(src, dst, t) {
      forall d | d in dst.devices && Local(src.devices, dst.devices[d].mac).Some?
        ensures var s := Local(src.devices, dst.devices[d].mac).value; ShownIn(src, t.kind, y, s) <==>
            Belongs(src, t.kind, x, s)
      {
        LocalIs(dst.devices, d);
      }
    }
    if SameMembers(src, dst, Mirror(src, dst, user), t.kind, x, y) {
      forall s | s in src.devices && Local(dst.devices, src.devices[s].mac).Some?
        ensures ShownIn(src, t.kind, y, s) <==> Belongs(src, t.kind, x, s)
      {
        LocalIs(src.devices, s);
      }
    }
  }

  /** After a replace by an export of any other installation, a target addresses what it ought to exactly
      when it keeps its meaning by these conditions. */
  lemma TargetMeaning(src: Store, dst: Store, user: Id, t: Target)
    requires Valid(src) && Valid(dst)
    ensures Preserved(src, dst, user, t) <==> Keeps(src, dst, t)
  {
    hide Mirror, Means, SameMembers, SameExcludes;
    var after, remap := Mirror(src, dst, user), ExportRemap(src, dst.devices);
    MirrorHardware(src, dst, user);
    match t.kind
    case All => AllMeans(src, dst, after, remap, t);
    case OneDevice =>
      if Truthy(t.id) {
        DeviceMeans(src, dst, after, remap, t);
        SubstLands(src, dst, t.id.value);
      } else {
        NothingNamed(src, dst, after, remap, t);
      }
    case AllExcept =>
      ExceptMeans(src, dst, after, remap, t);
      ExceptKeeps(src, dst, t);
    case _ =>
      if Truthy(t.id) {
        SubstLands(src, dst, t.id.value);
        GroupingMeans(src, dst, after, remap, t);
        GroupingKeeps(src, dst, user, t);
      } else {
        NothingNamed(src, dst, after, remap, t);
      }
  }

  lemma NothingNamed(src: Store, dst: Store, after: Store, remap: map<Id, Id>, t: Target)
    requires !Truthy(t.id) && t.kind != All && t.kind != AllExcept
    ensures Means(src, dst, after, remap, t)
  {
    assert Addressed(src, t) == {} && Addressed(after, RemapTarget(remap, t)) == {};
  }

  /** Position by position, the restored targets address what they ought to exactly when they keep their meaning. */
  ghost predicate TargetsPreserved(src: Store, dst: Store, after: Store, was: seq<Target>, now: seq<Target>) {
    |now| == |was| && forall k :: 0 <= k < |was| ==>
        (Addressed(after, now[k]) == Intended(src, dst, was[k]) <==> Keeps(src, dst, was[k]))
  }

  lemma RemapTargetsPreserved(src: Store, dst: Store, user: Id, ts: seq<Target>)
    requires Valid(src) && Valid(dst)
    ensures TargetsPreserved(src, dst, Mirror(src, dst, user), ts, RemapTargets(ExportRemap(src, dst.devices), ts))
  {
    hide Keeps, Addressed, Intended, Mirror, Valid;
    forall k | 0 <= k < |ts|
      ensures Preserved(src, dst, user, ts[k]) <==> Keeps(src, dst, ts[k])
    {
      TargetMeaning(src, dst, user, ts[k]);
    }
  }

  /** Every target of every restored schedule and quick action addresses what it ought to exactly when it
      keeps its meaning by those conditions. */
  lemma StoredTargetsPreserved(src: Store, dst: Store, env: Envelope, user: Id, mint: Mint, i: Id)
    requires Valid(src) && Valid(dst)
    requires IsExport(src, env) && Restore(dst, env, Replace, user, mint).Ok?
    ensures
      var after := After(dst, env, Replace, user, mint);
      && (i in after.schedules <==> i in src.schedules) && (i in after.actions <==> i in src.actions)
      && (i in src.schedules ==>
          TargetsPreserved(src, dst, after, src.schedules[i].view.targets, after.schedules[i].view.targets))
      && (i in src.actions ==> TargetsPreserved(src, dst, after, src.actions[i].view.targets,
                                                after.actions[i].view.targets))
  {
    hide Restore, TargetsPreserved, IsExport, Valid;
    ReplaceWithExport(src, dst, env, user, mint);
    if i in src.schedules {
      RemapTargetsPreserved(src, dst, user, src.schedules[i].view.targets);
    }
    if i in src.actions {
      RemapTargetsPreserved(src, dst, user, src.actions[i].view.targets);
    }
  }

  // ---------- Sound stores: the conditions in short

  /** Every device is exported in the room and zone it is in. */
  ghost predicate WellPlaced(src: Store) {
    forall d :: d in src.devices ==>
      ShownRoom(src, src.devices[d]) == src.devices[d].room && ShownZone(src, src.devices[d]) == src.devices[d].zone
  }

  /** That is so exactly when every placement exists and a zoned device is in its zone's room. */
  lemma WellPlacedIsCoherent(src: Store)
    ensures WellPlaced(src) <==> Coherent(src)
  {
    if WellPlaced(src) {
      forall d | d in src.devices ensures CoherentDevice(src, src.devices[d]) {
        assert ShownRoom(src, src.devices[d]) == src.devices[d].room;
      }
    }
    if Coherent(src) {
      forall d | d in src.devices
        ensures ShownRoom(src, src.devices[d]) == src.devices[d].room
            && ShownZone(src, src.devices[d]) == src.devices[d].zone
      {
        assert CoherentDevice(src, src.devices[d]);
      }
    }
  }

  /** Device ids are not used for rooms, zones or groups, and every device has a MAC. */
  ghost predicate Apart(src: Store) {
    src.devices.Keys !! HierarchyIds(src) && forall d :: d in src.devices ==> src.devices[d].mac != ""
  }

  /** When the meaning survives: a device that is missing here must not lend its id to a local
      device, and a room, zone or group target must not name a device instead. */
  ghost predicate Safe(src: Store, dst: Store, t: Target) {
    match t.kind
    case All => true
    case OneDevice => Truthy(t.id) ==> KnownTo(src, dst.devices, t.id.value) || t.id.value !in dst.devices
    case AllExcept =>
      forall x :: x in OrElse(t.excludes, []) && x in dst.devices && !KnownTo(src, dst.devices, x) ==>
        dst.devices[x].mac in ExcludedMacs(src, t)
    case _ =>
      Truthy(t.id) && KnownTo(src, dst.devices, t.id.value) ==>
        forall s :: Belongs(src, t.kind, Local(dst.devices, src.devices[t.id.value].mac).value, s) ==>
          src.devices[s].mac !in AllMacs(dst)
  }

  lemma DeviceSafe(src: Store, dst: Store, t: Target)
    requires Apart(src) && t.kind == OneDevice
    ensures Keeps(src, dst, t) <==> Safe(src, dst, t)
  {
  }

  lemma ExceptSafe(src: Store, dst: Store, t: Target)
    requires Apart(src) && t.kind == AllExcept
    ensures Keeps(src, dst, t) <==> Safe(src, dst, t)
  {
    hide ExcludedMacs;
    assert forall x :: Remapped(src, dst, x) <==> KnownTo(src, dst.devices, x);
  }

  lemma GroupingSafe(src: Store, dst: Store, t: Target)
    requires WellPlaced(src) && Apart(src) && Grouping(t.kind)
    ensures Keeps(src, dst, t) <==> Safe(src, dst, t)
  {
    if Truthy(t.id) {
      var x, y := t.id.value, Lands(src, dst, t.id.value);
      forall s, id | s in src.devices
        ensures ShownIn(src, t.kind, id, s) <==> Belongs(src, t.kind, id, s)
        ensures Belongs(src, t.kind, id, s) ==> id in HierarchyIds(src)
      {
        ShownWhereItIs(src, t.kind, id, s);
      }
      hide ShownIn, Belongs, WellPlaced;
    }
  }

  lemma ShownWhereItIs(src: Store, kind: TargetType, id: Id, s: Id)
    requires WellPlaced(src)
    ensures ShownIn(src, kind, id, s) <==> Belongs(src, kind, id, s)
    ensures Belongs(src, kind, id, s) ==> id in HierarchyIds(src)
  {
  }

  /** For a store whose devices are exported where they are, and whose ids are apart, keeping its meaning
      comes to this: a device that is missing here does not lend its id to a local one, and a room, zone or
      group target does not name a device. */
  lemma KeepsIsSafe(src: Store, dst: Store, t: Target)
    requires WellPlaced(src) && Apart(src)
    ensures Keeps(src, dst, t) <==> Safe(src, dst, t)
  {
    match t.kind
    case All =>
    case OneDevice => DeviceSafe(src, dst, t);
    case AllExcept => ExceptSafe(src, dst, t);
    case _ => GroupingSafe(src, dst, t);
  }

  // ---------- Both conditions on the exported store are needed

  /** A placement reference that names something: the empty id names nothing. */
  function Named(o: Option<Id>): Option<Id> {
    if Truthy(o) then o else None
  }

  /** A device that is not exported where it is makes a room or zone target change its meaning wherever the
      device is known. */
  lemma MisplacedDevice(src: Store, dst: Store, user: Id, s: Id) returns (t: Target)
    requires Valid(src) && Valid(dst) && s in src.devices && Local(dst.devices, src.devices[s].mac).Some?
    requires
      || ShownRoom(src, src.devices[s]) != Named(src.devices[s].room)
      || ShownZone(src, src.devices[s]) != Named(src.devices[s].zone)
    ensures (t.kind == OneRoom || t.kind == OneZone) && !Preserved(src, dst, user, t)
  {
    var d := src.devices[s];
    if ShownRoom(src, d) != Named(d.room) {
      t := Target(OneRoom, if ShownRoom(src, d).Some? then ShownRoom(src, d) else d.room, None, "");
    } else {
      t := Target(OneZone, d.zone, None, "");
    }
    TargetMeaning(src, dst, user, t);
    hide Preserved;
    assert ShownIn(src, t.kind, Lands(src, dst, t.id.value), s) != Belongs(src, t.kind, t.id.value, s);
  }

  /** A device target whose id is also a room, zone or group id is not remapped, and keeps its meaning
      only if the id already means the same device here. */
  lemma SharedId(src: Store, dst: Store, user: Id, t: Target)
    requires Valid(src) && Valid(dst) && t.kind == OneDevice && t.id.Some? && t.id.value in HierarchyIds(src)
    ensures
      var x := t.id.value;
      Preserved(src, dst, user, t) <==>
        if x in dst.devices then x in src.devices && src.devices[x].mac == dst.devices[x].mac
        else x in src.devices ==> src.devices[x].mac !in AllMacs(dst)
  {
    TargetMeaning(src, dst, user, t);
    hide Preserved;
  }

  lemma SharedExcludeKeeps(src: Store, dst: Store, t: Target, x: Id)
    requires Valid(dst) && t.kind == AllExcept && t.excludes == Some([x]) && x in HierarchyIds(src)
    ensures Keeps(src, dst, t) <==>
              if x in dst.devices then x in src.devices && src.devices[x].mac == dst.devices[x].mac
              else x in src.devices ==> src.devices[x].mac !in AllMacs(dst)
  {
    hide HierarchyIds;
    assert forall y :: y in OrElse(t.excludes, []) <==> y == x;
    if x in dst.devices {
      LocalIs(dst.devices, x);
    }
  }

  /** So is an excluded device: its exclusion keeps its meaning only if the id means the same device here. */
  lemma SharedExclude(src: Store, dst: Store, user: Id, t: Target, x: Id)
    requires Valid(src) && Valid(dst) && t.kind == AllExcept && t.excludes == Some([x]) && x in HierarchyIds(src)
    ensures Preserved(src, dst, user, t) <==>
              if x in dst.devices then x in src.devices && src.devices[x].mac == dst.devices[x].mac
              else x in src.devices ==> src.devices[x].mac !in AllMacs(dst)
  {
    hide Preserved, Keeps;
    TargetMeaning(src, dst, user, t);
    SharedExcludeKeeps(src, dst, t, x);
  }
}
