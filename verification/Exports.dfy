/** What an export of a store may be. The order of rows with equal sort keys is the database's
    choice, so exporting is a relation between stores and envelopes. */
module Exports {
  import opened Prelude
  import opened Stores
  import opened Envelopes
  import opened Hierarchy
  import opened HierarchyFacts

  // ---------- Rows and the items that show them

  ghost function MacsOf(st: Store, ds: set<Id>): (r: set<Mac>)
    ensures forall mac :: mac in r <==> exists d :: d in ds && d in st.devices && st.devices[d].mac == mac
  {
    set d | d in ds && d in st.devices :: st.devices[d].mac
  }

  ghost function InZone(st: Store, z: Id): set<Id> {
    set d | d in st.devices && st.devices[d].zone == Some(z)
  }

  ghost function UnzonedIn(st: Store, r: Id): set<Id> {
    set d | d in st.devices && st.devices[d].room == Some(r) && st.devices[d].zone == None
  }

  ghost predicate ExportsDevice(st: Store, item: DeviceItem) {
    && item.id.Some? && item.id.value in st.devices
    && item.mac == Some(st.devices[item.id.value].mac)
    && item.name == Some(st.devices[item.id.value].name)
  }

  ghost predicate ExportsZone(st: Store, room: Id, z: ZoneItem) {
    && z.id.Some? && z.id.value in st.zones
    && var row := st.zones[z.id.value];
       && row.key.room == room
       && z.name == Some(row.key.name) && z.icon == row.attrs.icon && z.sortOrder == Some(row.attrs.sortOrder)
       && Lists(z.macs, MacsOf(st, InZone(st, z.id.value)))
  }

  ghost predicate ExportsRoom(st: Store, r: RoomItem) {
    && r.id.Some? && r.id.value in st.rooms
    && var row := st.rooms[r.id.value];
       && r.name == Some(row.key) && r.icon == row.attrs.icon && r.sortOrder == Some(row.attrs.sortOrder)
       && Lists(r.macs, MacsOf(st, UnzonedIn(st, r.id.value)))
       && ExportsZones(st, r.id.value, r.zones)
  }

  ghost predicate ExportsGroup(st: Store, g: GroupItem) {
    && g.id.Some? && g.id.value in st.groups
    && var row := st.groups[g.id.value];
       && g.name == Some(row.key) && g.icon == row.attrs.look.icon && g.sortOrder == Some(row.attrs.look.sortOrder)
       && Lists(g.macs, MacsOf(st, row.attrs.members))
  }

  // ---------- Lists of items, each row once, in sort order

  ghost predicate ExportsZones(st: Store, room: Id, zones: seq<ZoneItem>) {
    && (forall k :: 0 <= k < |zones| ==> ExportsZone(st, room, zones[k]))
    && (forall j, k :: 0 <= j < k < |zones| ==> zones[j].id != zones[k].id)
    && (forall z :: z in st.zones && st.zones[z].key.room == room ==>
        exists k :: 0 <= k < |zones| && zones[k].id == Some(z))
    && (forall j, k :: 0 <= j < k < |zones| ==> OrElse(zones[j].sortOrder, 0) <= OrElse(zones[k].sortOrder, 0))
  }

  ghost predicate ExportsRooms(st: Store, rooms: seq<RoomItem>) {
    && (forall k :: 0 <= k < |rooms| ==> ExportsRoom(st, rooms[k]))
    && (forall j, k :: 0 <= j < k < |rooms| ==> rooms[j].id != rooms[k].id)
    && (forall r :: r in st.rooms ==> exists k :: 0 <= k < |rooms| && rooms[k].id == Some(r))
    && (forall j, k :: 0 <= j < k < |rooms| ==> OrElse(rooms[j].sortOrder, 0) <= OrElse(rooms[k].sortOrder, 0))
  }

  ghost predicate ExportsGroups(st: Store, groups: seq<GroupItem>) {
    && (forall k :: 0 <= k < |groups| ==> ExportsGroup(st, groups[k]))
    && (forall j, k :: 0 <= j < k < |groups| ==> groups[j].id != groups[k].id)
    && (forall g :: g in st.groups ==> exists k :: 0 <= k < |groups| && groups[k].id == Some(g))
    && (forall j, k :: 0 <= j < k < |groups| ==> OrElse(groups[j].sortOrder, 0) <= OrElse(groups[k].sortOrder, 0))
  }

  ghost predicate ExportsDevices(st: Store, items: seq<DeviceItem>) {
    && (forall k :: 0 <= k < |items| ==> ExportsDevice(st, items[k]))
    && (forall j, k :: 0 <= j < k < |items| ==> items[j].id != items[k].id)
    && (forall d :: d in st.devices ==> exists k :: 0 <= k < |items| && items[k].id == Some(d))
  }

  // ---------- Schedules, quick actions, scenes

  function TriggerOut(t: Trigger): TriggerItem {
    TriggerItem(Some(TriggerTypeName(t.kind)), t.cron, t.offset)
  }

  function TargetOut(t: Target): TargetItem {
    TargetItem(Some(TargetTypeName(t.kind)), t.id, t.excludes, Some(t.state))
  }

  function TriggersOut(ts: seq<Trigger>): (r: seq<TriggerItem>)
    ensures |r| == |ts| && forall k :: 0 <= k < |ts| ==> r[k] == TriggerOut(ts[k])
  {
    seq(|ts|, k requires 0 <= k < |ts| => TriggerOut(ts[k]))
  }

  function TargetsOut(ts: seq<Target>): (r: seq<TargetItem>)
    ensures |r| == |ts| && forall k :: 0 <= k < |ts| ==> r[k] == TargetOut(ts[k])
  {
    seq(|ts|, k requires 0 <= k < |ts| => TargetOut(ts[k]))
  }

  function ScheduleOut(id: Id, s: Schedule): ScheduleItem {
    ScheduleItem(Some(id), Some(s.name), Some(s.enabled), Some(s.priority), TriggersOut(s.triggers),
                 TargetsOut(s.targets))
  }

  function ActionOut(id: Id, a: QuickAction): ActionItem {
    ActionItem(Some(id), Some(a.name), a.icon, Some(a.sortOrder), TargetsOut(a.targets))
  }

  function SceneOut(id: Id, s: Scene): SceneItem {
    SceneItem(Some(id), Some(s.name), s.red, s.green, s.blue, s.temp, Some(s.brightness))
  }

  ghost predicate ExportsSchedules(st: Store, items: seq<ScheduleItem>) {
    && (forall k :: 0 <= k < |items| ==>
         items[k].id.Some? && items[k].id.value in st.schedules &&
         items[k] == ScheduleOut(items[k].id.value, st.schedules[items[k].id.value].view))
    && (forall j, k :: 0 <= j < k < |items| ==> items[j].id != items[k].id)
    && (forall i :: i in st.schedules ==> exists k :: 0 <= k < |items| && items[k].id == Some(i))
    && (forall j, k :: 0 <= j < k < |items| ==> OrElse(items[j].priority, 0) >= OrElse(items[k].priority, 0))
  }

  ghost predicate ExportsActions(st: Store, items: seq<ActionItem>) {
    && (forall k :: 0 <= k < |items| ==>
         items[k].id.Some? && items[k].id.value in st.actions &&
         items[k] == ActionOut(items[k].id.value, st.actions[items[k].id.value].view))
    && (forall j, k :: 0 <= j < k < |items| ==> items[j].id != items[k].id)
    && (forall i :: i in st.actions ==> exists k :: 0 <= k < |items| && items[k].id == Some(i))
    && (forall j, k :: 0 <= j < k < |items| ==> OrElse(items[j].sortOrder, 0) <= OrElse(items[k].sortOrder, 0))
  }

  /** Scenes are listed by name; the collation is the database's, so their order is left open. */
  ghost predicate ExportsScenes(st: Store, items: seq<SceneItem>) {
    && (forall k :: 0 <= k < |items| ==>
         items[k].id.Some? && items[k].id.value in st.scenes &&
         items[k] == SceneOut(items[k].id.value, st.scenes[items[k].id.value].view))
    && (forall j, k :: 0 <= j < k < |items| ==> items[j].id != items[k].id)
    && (forall i :: i in st.scenes ==> exists k :: 0 <= k < |items| && items[k].id == Some(i))
  }

  ghost predicate IsExport(st: Store, env: Envelope) {
    && env.version == BACKUP_VERSION
    && ExportsDevices(st, env.devices)
    && ExportsRooms(st, env.rooms)
    && ExportsGroups(st, env.groups)
    && ExportsSchedules(st, env.schedules)
    && ExportsActions(st, env.actions)
    && ExportsScenes(st, env.scenes)
  }

  // ---------- The placement an export shows

  /** Under a zone if the device has one, and otherwise under its room; a reference to a missing row shows nowhere. */
  ghost function ShownRoom(st: Store, d: Device): Option<Id> {
    if d.zone.Some? then
      if d.zone.value in st.zones && st.zones[d.zone.value].key.room in st.rooms then
        Some(st.zones[d.zone.value].key.room)
      else None
    else if d.room.Some? && d.room.value in st.rooms then d.room
    else None
  }

  ghost function ShownZone(st: Store, d: Device): Option<Id> {
    if ShownRoom(st, d).Some? then d.zone else None
  }

  // ---------- The flattened document of an export

  ghost predicate ExportsStep(st: Store, s: Step) {
    match s
    case RoomStep(r) => ExportsRoom(st, r)
    case ZoneStep(p, z) => ExportsRoom(st, p) && ExportsZone(st, p.id.value, z)
    case GroupStep(g) => ExportsGroup(st, g)
  }

  /** Two entries for the same row. */
  ghost predicate SameRow(a: Step, b: Step) {
    a.Kind() == b.Kind() && a.Id() == b.Id()
  }

  ghost predicate DistinctRows(doc: seq<Step>) {
    forall j, k :: 0 <= j < k < |doc| ==> !SameRow(doc[j], doc[k])
  }

  ghost predicate ExportsDocument(st: Store, doc: seq<Step>) {
    && WellNested(doc)
    && (forall k :: 0 <= k < |doc| ==> ExportsStep(st, doc[k]))
    && DistinctRows(doc)
  }

  /** The rows an export shows: zones only under an existing room. */
  ghost function ShownIds(st: Store, kind: Kind): set<Id> {
    match kind
    case RoomKind => st.rooms.Keys
    case ZoneKind => set z | z in st.zones && st.zones[z].key.room in st.rooms
    case GroupKind => st.groups.Keys
  }

  ghost predicate Carries(doc: seq<Step>, kind: Kind, i: Id) {
    exists k :: 0 <= k < |doc| && doc[k].Kind() == kind && doc[k].Id() == Some(i)
  }

  /** Every row that an export shows has its entry. */
  ghost predicate CoversStore(st: Store, doc: seq<Step>) {
    forall kind, i :: i in ShownIds(st, kind) ==> Carries(doc, kind, i)
  }

  /** Entries of a room: the room itself, then its zones. */
  ghost predicate OfRoom(s: Step, r: RoomItem) {
    s == RoomStep(r) || (s.ZoneStep? && s.parent == r && s.zone in r.zones)
  }

  lemma {:induction false} RoomStepsFrom(rooms: seq<RoomItem>)
    ensures forall s :: s in RoomSteps(rooms) ==> exists k :: 0 <= k < |rooms| && OfRoom(s, rooms[k])
    ensures forall k, s :: 0 <= k < |rooms| && OfRoom(s, rooms[k]) ==> s in RoomSteps(rooms)
    decreases |rooms|
  {
    if rooms != [] {
      var n := |rooms| - 1;
      RoomStepsFrom(rooms[..n]);
      forall s | s in RoomSteps(rooms)
        ensures exists k :: 0 <= k < |rooms| && OfRoom(s, rooms[k])
      {
        if s in RoomSteps(rooms[..n]) {
          var k :| 0 <= k < n && OfRoom(s, rooms[..n][k]);
          assert OfRoom(s, rooms[k]);
        } else {
          assert OfRoom(s, rooms[n]);
        }
      }
      forall k, s | 0 <= k < |rooms| && OfRoom(s, rooms[k])
        ensures s in RoomSteps(rooms)
      {
        if k < n {
          assert OfRoom(s, rooms[..n][k]);
        } else if s.ZoneStep? {
          var j :| 0 <= j < |rooms[n].zones| && rooms[n].zones[j] == s.zone;
          assert ZoneSteps(rooms[n], rooms[n].zones)[j] == s;
        }
      }
    }
  }

  /** The rooms an export lists, up to some point. */
  ghost predicate ShowsRooms(st: Store, rooms: seq<RoomItem>) {
    && (forall k :: 0 <= k < |rooms| ==> ExportsRoom(st, rooms[k]))
    && (forall j, k :: 0 <= j < k < |rooms| ==> rooms[j].id != rooms[k].id)
  }

  /** Entries of different rooms are for different rows. */
  lemma RoomsApart(st: Store, r: RoomItem, s: Step, s': Step, r': RoomItem)
    requires OfRoom(s, r) && OfRoom(s', r') && ExportsStep(st, s) && ExportsStep(st, s') && r.id != r'.id
    ensures !SameRow(s, s')
  {
  }

  /** Entries of one room are for different rows. */
  lemma ZonesApart(st: Store, r: RoomItem, doc: seq<Step>, j: nat, k: nat)
    requires ExportsRoom(st, r) && doc == [RoomStep(r)] + ZoneSteps(r, r.zones) && j < k < |doc|
    ensures !SameRow(doc[j], doc[k])
  {
    if j > 0 {
      assert r.zones[j - 1].id != r.zones[k - 1].id;
    }
  }

  lemma RoomStepsShown(st: Store, rooms: seq<RoomItem>, s: Step) returns (a: nat)
    requires ShowsRooms(st, rooms) && s in RoomSteps(rooms)
    ensures a < |rooms| && OfRoom(s, rooms[a]) && ExportsStep(st, s)
  {
    RoomStepsFrom(rooms);
    a :| 0 <= a < |rooms| && OfRoom(s, rooms[a]);
  }

  lemma JoinDistinct(a: seq<Step>, b: seq<Step>)
    requires DistinctRows(a) && DistinctRows(b)
    requires forall j, k :: 0 <= j < |a| && 0 <= k < |b| ==> !SameRow(a[j], b[k])
    ensures DistinctRows(a + b)
  {
  }

  lemma FrontApart(st: Store, rooms: seq<RoomItem>, s: Step, t: Step)
    requires ShowsRooms(st, rooms) && rooms != [] && s in RoomSteps(rooms[..|rooms| - 1])
    requires t in [RoomStep(rooms[|rooms| - 1])] + ZoneSteps(rooms[|rooms| - 1], rooms[|rooms| - 1].zones)
    ensures !SameRow(s, t)
  {
    var n := |rooms| - 1;
    var a := RoomStepsShown(st, rooms[..n], s);
    RoomsApart(st, rooms[a], s, t, rooms[n]);
  }

  lemma {:induction false} RoomRowsDistinct(st: Store, rooms: seq<RoomItem>)
    requires ShowsRooms(st, rooms)
    ensures DistinctRows(RoomSteps(rooms))
    decreases |rooms|
  {
    hide SameRow, ExportsRoom, ExportsStep, OfRoom;
    if rooms != [] {
      var n := |rooms| - 1;
      var front, last := rooms[..n], rooms[n];
      var mine := [RoomStep(last)] + ZoneSteps(last, last.zones);
      RoomRowsDistinct(st, front);
      forall j, k | 0 <= j < k < |mine| ensures !SameRow(mine[j], mine[k]) {
        ZonesApart(st, last, mine, j, k);
      }
      forall j, k | 0 <= j < |RoomSteps(front)| && 0 <= k < |mine| ensures !SameRow(RoomSteps(front)[j], mine[k]) {
        FrontApart(st, rooms, RoomSteps(front)[j], mine[k]);
      }
      JoinDistinct(RoomSteps(front), mine);
      assert RoomSteps(rooms) == RoomSteps(front) + mine;
    }
  }

  lemma RoomStepsDistinct(st: Store, rooms: seq<RoomItem>)
    requires ShowsRooms(st, rooms)
    ensures ExportsDocument(st, RoomSteps(rooms))
  {
    var doc := RoomSteps(rooms);
    RoomStepsNested(rooms);
    RoomRowsDistinct(st, rooms);
    forall k | 0 <= k < |doc| ensures ExportsStep(st, doc[k]) {
      var a := RoomStepsShown(st, rooms, doc[k]);
    }
  }

  lemma GroupsApart(st: Store, env: Envelope, j: nat, k: nat)
    requires IsExport(st, env) && j < k < |env.groups|
    ensures !SameRow(GroupStep(env.groups[j]), GroupStep(env.groups[k]))
  {
  }

  lemma ExportDocument(st: Store, env: Envelope)
    requires IsExport(st, env)
    ensures ExportsDocument(st, Document(env))
  {
    hide ExportsRoom, ExportsGroup, RoomSteps;
    var front, doc := RoomSteps(env.rooms), Document(env);
    RoomStepsDistinct(st, env.rooms);
    RoomStepsNested(env.rooms);
    DocumentNested(env);
    forall k | 0 <= k < |doc| ensures ExportsStep(st, doc[k]) {
      assert k < |front| ==> ExportsStep(st, front[k]);
    }
    forall j, k | 0 <= j < k < |doc|
      ensures !SameRow(doc[j], doc[k])
    {
      if j >= |front| {
        GroupsApart(st, env, j - |front|, k - |front|);
      } else if k < |front| {
        assert !SameRow(front[j], front[k]);
      } else {
        assert !front[j].GroupStep?;
      }
    }
  }

  lemma StepOfDocument(env: Envelope, a: nat, s: Step) returns (k: nat)
    requires a < |env.rooms| && OfRoom(s, env.rooms[a])
    ensures k < |Document(env)| && Document(env)[k] == s
  {
    RoomStepsFrom(env.rooms);
    assert OfRoom(s, env.rooms[a]);
    assert s in RoomSteps(env.rooms);
    k :| 0 <= k < |RoomSteps(env.rooms)| && RoomSteps(env.rooms)[k] == s;
  }

  lemma RoomCovered(st: Store, env: Envelope, i: Id) returns (k: nat)
    requires ExportsRooms(st, env.rooms) && i in st.rooms
    ensures k < |Document(env)| && Document(env)[k].Kind() == RoomKind && Document(env)[k].Id() == Some(i)
  {
    var a :| 0 <= a < |env.rooms| && env.rooms[a].id == Some(i);
    k := StepOfDocument(env, a, RoomStep(env.rooms[a]));
  }

  lemma ZoneListed(st: Store, room: Id, zones: seq<ZoneItem>, i: Id) returns (z: ZoneItem)
    requires ExportsZones(st, room, zones) && i in st.zones && st.zones[i].key.room == room
    ensures z in zones && z.id == Some(i)
  {
    var b :| 0 <= b < |zones| && zones[b].id == Some(i);
    z := zones[b];
  }

  lemma RoomListed(st: Store, rooms: seq<RoomItem>, i: Id) returns (a: nat)
    requires ExportsRooms(st, rooms) && i in st.rooms
    ensures a < |rooms| && rooms[a].id == Some(i) && ExportsZones(st, i, rooms[a].zones)
  {
    a :| 0 <= a < |rooms| && rooms[a].id == Some(i);
    assert ExportsRoom(st, rooms[a]);
  }

  lemma ZoneCovered(st: Store, env: Envelope, i: Id) returns (k: nat)
    requires ExportsRooms(st, env.rooms) && i in st.zones && st.zones[i].key.room in st.rooms
    ensures k < |Document(env)| && Document(env)[k].Kind() == ZoneKind && Document(env)[k].Id() == Some(i)
  {
    var a := RoomListed(st, env.rooms, st.zones[i].key.room);
    var z := ZoneListed(st, st.zones[i].key.room, env.rooms[a].zones, i);
    k := StepOfDocument(env, a, ZoneStep(env.rooms[a], z));
  }

  lemma GroupCovered(st: Store, env: Envelope, i: Id) returns (k: nat)
    requires ExportsGroups(st, env.groups) && i in st.groups
    ensures k < |Document(env)| && Document(env)[k].Kind() == GroupKind && Document(env)[k].Id() == Some(i)
  {
    hide RoomSteps;
    var a :| 0 <= a < |env.groups| && env.groups[a].id == Some(i);
    k := |RoomSteps(env.rooms)| + a;
  }

  lemma DocumentCovers(st: Store, env: Envelope)
    requires IsExport(st, env)
    ensures CoversStore(st, Document(env))
  {
    forall kind, i | i in ShownIds(st, kind)
      ensures Carries(Document(env), kind, i)
    {
      match kind
      case RoomKind => var k := RoomCovered(st, env, i);
      case ZoneKind => var k := ZoneCovered(st, env, i);
      case GroupKind => var k := GroupCovered(st, env, i);
    }
  }
}
