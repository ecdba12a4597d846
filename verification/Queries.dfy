/** Reading the session: the export, and resolving a target to device ids. */
module Queries {
  import opened Prelude
  import opened Stores
  import opened Envelopes
  import opened Exports
  import opened Meaning
  import opened Databases

  /** Elements of a set in some order, as a query without ORDER BY returns them. */
  method Listed<T(==,!new)>(xs: set<T>) returns (s: seq<T>)
    ensures Lists(s, xs)
  {
    s := [];
    var left := xs;
    while left != {}
      invariant left <= xs && Lists(s, xs - left)
      decreases |left|
    {
      var x :| x in left;
      s, left := s + [x], left - {x};
    }
  }

  ghost predicate Ascending(s: seq<Id>, rank: map<Id, int>)
    requires forall k :: 0 <= k < |s| ==> s[k] in rank
  {
    forall i, j :: 0 <= i < j < |s| ==> rank[s[i]] <= rank[s[j]]
  }

  /** ORDER BY: ties come in any order. */
  method OrderBy(rank: map<Id, int>) returns (s: seq<Id>)
    ensures Lists(s, rank.Keys) && Ascending(s, rank)
  {
    s := [];
    var left := rank.Keys;
    while left != {}
      invariant left <= rank.Keys && Lists(s, rank.Keys - left)
      invariant Ascending(s, rank)
      invariant forall k, y :: 0 <= k < |s| && y in left ==> rank[s[k]] <= rank[y]
      decreases |left|
    {
      var least := LeastRanked(left, rank);
      s, left := s + [least], left - {least};
    }
  }

  method LeastRanked(ids: set<Id>, rank: map<Id, int>) returns (least: Id)
    requires ids != {} && ids <= rank.Keys
    ensures least in ids && forall x :: x in ids ==> rank[least] <= rank[x]
  {
    least :| least in ids;
    var left := ids - {least};
    while left != {}
      invariant left <= ids && least in ids && forall x :: x in ids && x !in left ==> rank[least] <= rank[x]
      decreases |left|
    {
      var x :| x in left;
      if rank[x] < rank[least] {
        least := x;
      }
      left := left - {x};
    }
  }

  lemma Position<T(!new)>(s: seq<T>, xs: set<T>, x: T) returns (k: nat)
    requires Lists(s, xs) && x in xs
    ensures k < |s| && s[k] == x
  {
    assert x in s;
    k :| 0 <= k < |s| && s[k] == x;
  }

  lemma EachListed<T(!new)>(s: seq<T>, xs: set<T>)
    requires Lists(s, xs)
    ensures forall x :: x in xs ==> exists k :: 0 <= k < |s| && s[k] == x
  {
  }

  lemma OrderedAndListed(ids: seq<Id>, rank: map<Id, int>)
    requires Lists(ids, rank.Keys) && Ascending(ids, rank)
    ensures forall k :: 0 <= k < |ids| ==> ids[k] in rank.Keys
    ensures forall j, k :: 0 <= j < k < |ids| ==> ids[j] != ids[k] && rank[ids[j]] <= rank[ids[k]]
    ensures forall i :: i in rank.Keys ==> exists k :: 0 <= k < |ids| && ids[k] == i
  {
    EachListed(ids, rank.Keys);
  }

  lemma MacsListed(st: Store, ds: set<Id>, ids: seq<Id>, macs: seq<Mac>)
    requires UniqueMacs(st.devices) && Lists(ids, ds * st.devices.Keys) && |macs| == |ids|
    requires forall k :: 0 <= k < |ids| ==> ids[k] in st.devices && macs[k] == st.devices[ids[k]].mac
    ensures Lists(macs, MacsOf(st, ds))
  {
    forall mac | mac in MacsOf(st, ds)
      ensures mac in macs
    {
      var d :| d in ds && d in st.devices && st.devices[d].mac == mac;
      var k := Position(ids, ds * st.devices.Keys, d);
      assert macs[k] == mac;
    }
    forall k | 0 <= k < |macs|
      ensures macs[k] in MacsOf(st, ds)
    {
      assert ids[k] in ds * st.devices.Keys;
    }
  }

  method MacsIn(db: Database, ds: set<Id>) returns (macs: seq<Mac>)
    requires UniqueMacs(db.devices)
    ensures Lists(macs, MacsOf(db.Contents(), ds))
  {
    var ids := Listed(ds * db.devices.Keys);
    assert forall k :: 0 <= k < |ids| ==> ids[k] in ds * db.devices.Keys;
    macs := [];
    for k := 0 to |ids|
      invariant |macs| == k && forall j :: 0 <= j < k ==> macs[j] == db.devices[ids[j]].mac
    {
      macs := macs + [db.devices[ids[k]].mac];
    }
    MacsListed(db.Contents(), ds, ids, macs);
  }

  method ExportDeviceList(db: Database) returns (items: seq<DeviceItem>)
    ensures ExportsDevices(db.Contents(), items)
  {
    var ids := Listed(db.devices.Keys);
    items := [];
    for k := 0 to |ids|
      invariant |items| == k && forall j :: 0 <= j < k ==>
          items[j].id == Some(ids[j]) && ExportsDevice(db.Contents(), items[j])
    {
      var d := ids[k];
      items := items + [DeviceItem(Some(d), Some(db.devices[d].mac), Some(db.devices[d].name))];
    }
    DevicesExported(db.Contents(), ids, items);
  }

  lemma DevicesExported(st: Store, ids: seq<Id>, items: seq<DeviceItem>)
    requires Lists(ids, st.devices.Keys) && |items| == |ids|
    requires forall k :: 0 <= k < |ids| ==> items[k].id == Some(ids[k]) && ExportsDevice(st, items[k])
    ensures ExportsDevices(st, items)
  {
    EachListed(ids, st.devices.Keys);
  }

  method ExportZoneList(db: Database, room: Id) returns (items: seq<ZoneItem>)
    requires UniqueMacs(db.devices)
    ensures ExportsZones(db.Contents(), room, items)
  {
    var rank := map z | z in db.zones && db.zones[z].key.room == room :: db.zones[z].attrs.sortOrder;
    var ids := OrderBy(rank);
    items := [];
    for k := 0 to |ids|
      invariant |items| == k && forall j :: 0 <= j < k ==>
          items[j].id == Some(ids[j]) && ExportsZone(db.Contents(), room, items[j])
    {
      var z := ids[k];
      var macs := MacsIn(db, set d | d in db.devices && db.devices[d].zone == Some(z));
      var row := db.zones[z];
      items := items + [ZoneItem(Some(z), Some(row.key.name), row.attrs.icon, Some(row.attrs.sortOrder), macs)];
    }
    ZonesExported(db.Contents(), room, rank, ids, items);
  }

  lemma ZonesExported(st: Store, room: Id, rank: map<Id, int>, ids: seq<Id>, items: seq<ZoneItem>)
    requires rank == map z | z in st.zones && st.zones[z].key.room == room :: st.zones[z].attrs.sortOrder
    requires Lists(ids, rank.Keys) && Ascending(ids, rank) && |items| == |ids|
    requires forall k :: 0 <= k < |ids| ==> items[k].id == Some(ids[k]) && ExportsZone(st, room, items[k])
    ensures ExportsZones(st, room, items)
  {
    OrderedAndListed(ids, rank);
    assert forall k :: 0 <= k < |ids| ==> items[k].sortOrder == Some(rank[ids[k]]);
    hide Lists, Ascending, ExportsZone;
    assert forall i :: i in rank <==> i in st.zones && st.zones[i].key.room == room;
  }

  method ExportRoomList(db: Database) returns (items: seq<RoomItem>)
    requires UniqueMacs(db.devices)
    ensures ExportsRooms(db.Contents(), items)
    ensures forall j, k :: 0 <= j < k < |items| ==> OrElse(items[j].sortOrder, 0) <= OrElse(items[k].sortOrder, 0)
  {
    var rank := map r | r in db.rooms :: db.rooms[r].attrs.sortOrder;
    var ids := OrderBy(rank);
    items := [];
    for k := 0 to |ids|
      invariant |items| == k && forall j :: 0 <= j < k ==>
          items[j].id == Some(ids[j]) && ExportsRoom(db.Contents(), items[j])
    {
      var r := ids[k];
      var zones := ExportZoneList(db, r);
      var macs := MacsIn(db, set d | d in db.devices && db.devices[d].room == Some(r) && db.devices[d].zone == None);
      var row := db.rooms[r];
      items := items + [RoomItem(Some(r), Some(row.key), row.attrs.icon, Some(row.attrs.sortOrder), macs, zones)];
    }
    RoomsExported(db.Contents(), rank, ids, items);
  }

  lemma RoomsExported(st: Store, rank: map<Id, int>, ids: seq<Id>, items: seq<RoomItem>)
    requires rank == map r | r in st.rooms :: st.rooms[r].attrs.sortOrder
    requires Lists(ids, rank.Keys) && Ascending(ids, rank) && |items| == |ids|
    requires forall k :: 0 <= k < |ids| ==> items[k].id == Some(ids[k]) && ExportsRoom(st, items[k])
    ensures ExportsRooms(st, items)
  {
    hide ExportsZones;
    OrderedAndListed(ids, rank);
    assert forall k :: 0 <= k < |ids| ==> items[k].sortOrder == Some(rank[ids[k]]);
    hide Lists, Ascending, ExportsRoom;
    assert rank.Keys == st.rooms.Keys;
  }

  method ExportGroupList(db: Database) returns (items: seq<GroupItem>)
    requires UniqueMacs(db.devices)
    ensures ExportsGroups(db.Contents(), items)
    ensures forall j, k :: 0 <= j < k < |items| ==> OrElse(items[j].sortOrder, 0) <= OrElse(items[k].sortOrder, 0)
  {
    var rank := map g | g in db.groups :: db.groups[g].attrs.look.sortOrder;
    var ids := OrderBy(rank);
    items := [];
    for k := 0 to |ids|
      invariant |items| == k && forall j :: 0 <= j < k ==>
          items[j].id == Some(ids[j]) && ExportsGroup(db.Contents(), items[j])
    {
      var row := db.groups[ids[k]];
      var macs := MacsIn(db, row.attrs.members);
      items := items + [GroupItem(Some(ids[k]), Some(row.key), row.attrs.look.icon, Some(row.attrs.look.sortOrder),
                                  macs)];
    }
    GroupsExported(db.Contents(), rank, ids, items);
  }

  lemma GroupsExported(st: Store, rank: map<Id, int>, ids: seq<Id>, items: seq<GroupItem>)
    requires rank == map g | g in st.groups :: st.groups[g].attrs.look.sortOrder
    requires Lists(ids, rank.Keys) && Ascending(ids, rank) && |items| == |ids|
    requires forall k :: 0 <= k < |ids| ==> items[k].id == Some(ids[k]) && ExportsGroup(st, items[k])
    ensures ExportsGroups(st, items)
  {
    OrderedAndListed(ids, rank);
    assert forall k :: 0 <= k < |ids| ==> items[k].sortOrder == Some(rank[ids[k]]);
    hide Lists, Ascending, ExportsGroup;
    assert rank.Keys == st.groups.Keys;
  }

  method ExportScheduleList(db: Database) returns (items: seq<ScheduleItem>)
    ensures ExportsSchedules(db.Contents(), items)
    ensures forall j, k :: 0 <= j < k < |items| ==> OrElse(items[j].priority, 0) >= OrElse(items[k].priority, 0)
  {
    var rank := map i | i in db.schedules :: -db.schedules[i].view.priority;
    var ids := OrderBy(rank);
    assert forall k :: 0 <= k < |ids| ==> ids[k] in rank.Keys;
    items := [];
    for k := 0 to |ids|
      invariant |items| == k && forall j :: 0 <= j < k ==> items[j] == ScheduleOut(ids[j], db.schedules[ids[j]].view)
    {
      items := items + [ScheduleOut(ids[k], db.schedules[ids[k]].view)];
    }
    SchedulesExported(db.Contents(), rank, ids, items);
  }

  lemma SchedulesExported(st: Store, rank: map<Id, int>, ids: seq<Id>, items: seq<ScheduleItem>)
    requires rank == map i | i in st.schedules :: -st.schedules[i].view.priority
    requires Lists(ids, rank.Keys) && Ascending(ids, rank) && |items| == |ids|
    requires forall k :: 0 <= k < |ids| ==>
        ids[k] in st.schedules && items[k] == ScheduleOut(ids[k], st.schedules[ids[k]].view)
    ensures ExportsSchedules(st, items)
  {
    OrderedAndListed(ids, rank);
    hide Lists, Ascending;
    assert rank.Keys == st.schedules.Keys;
  }

  method ExportActionList(db: Database) returns (items: seq<ActionItem>)
    ensures ExportsActions(db.Contents(), items)
    ensures forall j, k :: 0 <= j < k < |items| ==> OrElse(items[j].sortOrder, 0) <= OrElse(items[k].sortOrder, 0)
  {
    var rank := map i | i in db.actions :: db.actions[i].view.sortOrder;
    var ids := OrderBy(rank);
    assert forall k :: 0 <= k < |ids| ==> ids[k] in rank.Keys;
    items := [];
    for k := 0 to |ids|
      invariant |items| == k && forall j :: 0 <= j < k ==> items[j] == ActionOut(ids[j], db.actions[ids[j]].view)
    {
      items := items + [ActionOut(ids[k], db.actions[ids[k]].view)];
    }
    ActionsExported(db.Contents(), rank, ids, items);
  }

  lemma ActionsExported(st: Store, rank: map<Id, int>, ids: seq<Id>, items: seq<ActionItem>)
    requires rank == map i | i in st.actions :: st.actions[i].view.sortOrder
    requires Lists(ids, rank.Keys) && Ascending(ids, rank) && |items| == |ids|
    requires forall k :: 0 <= k < |ids| ==>
        ids[k] in st.actions && items[k] == ActionOut(ids[k], st.actions[ids[k]].view)
    ensures ExportsActions(st, items)
  {
    OrderedAndListed(ids, rank);
    hide Lists, Ascending;
    assert rank.Keys == st.actions.Keys;
  }

  method ExportSceneList(db: Database) returns (items: seq<SceneItem>)
    ensures ExportsScenes(db.Contents(), items)
  {
    var ids := Listed(db.scenes.Keys);
    assert forall k :: 0 <= k < |ids| ==> ids[k] in db.scenes.Keys;
    items := [];
    for k := 0 to |ids|
      invariant |items| == k && forall j :: 0 <= j < k ==> items[j] == SceneOut(ids[j], db.scenes[ids[j]].view)
    {
      items := items + [SceneOut(ids[k], db.scenes[ids[k]].view)];
    }
    ScenesExported(db.Contents(), ids, items);
  }

  lemma ScenesExported(st: Store, ids: seq<Id>, items: seq<SceneItem>)
    requires Lists(ids, st.scenes.Keys) && |items| == |ids|
    requires forall k :: 0 <= k < |ids| ==> ids[k] in st.scenes && items[k] == SceneOut(ids[k], st.scenes[ids[k]].view)
    ensures ExportsScenes(st, items)
  {
    EachListed(ids, st.scenes.Keys);
  }

  method ExportAll(db: Database) returns (env: Envelope)
    requires UniqueMacs(db.devices)
    ensures IsExport(db.Contents(), env)
  {
    var devices := ExportDeviceList(db);
    var rooms := ExportRoomList(db);
    var groups := ExportGroupList(db);
    var schedules := ExportScheduleList(db);
    var actions := ExportActionList(db);
    var scenes := ExportSceneList(db);
    env := Envelope(BACKUP_VERSION, devices, rooms, groups, schedules, actions, scenes);
  }

  /** What a target given as text resolves to; an unknown type resolves to nothing. */
  ghost function ResolveText(st: Store, kind: string, id: Option<Id>, excludes: Option<seq<Id>>): set<Id> {
    if ParseTargetType(kind).Some? then Resolve(st, ParseTargetType(kind).value, id, excludes) else {}
  }

  /** What each kind of target stands for. A device target stands for its id, whether or not there is such a
      device; a room, zone or group target without an id, and a target of an unknown kind, for nothing. */
  lemma ResolvedIff(st: Store, kind: string, id: Option<Id>, excludes: Option<seq<Id>>, d: Id)
    ensures d in ResolveText(st, kind, id, excludes) <==>
              || (kind == "device" && id == Some(d) && d != "")
              || (d in st.devices &&
                    (|| kind == "all"
                     || (kind == "all_except" && (excludes.None? || d !in excludes.value))
                     || (id.Some? && id.value != "" &&
                           (|| (kind == "room" && st.devices[d].room == id)
                            || (kind == "zone" && st.devices[d].zone == id)
                            || (kind == "group" && id.value in st.groups && d in st.groups[id.value].attrs.members)))))
  {
    if kind in {"device", "room", "zone", "group", "all", "all_except"} {
      assert ParseTargetType(kind).Some?;
    }
  }

  method ResolveDeviceIds(db: Database, kind: string, id: Option<Id>, excludes: Option<seq<Id>>) returns (ids: seq<Id>)
    ensures Lists(ids, ResolveText(db.Contents(), kind, id, excludes))
  {
    if kind == "device" && Truthy(id) {
      return [id.value];
    } else if kind == "room" && Truthy(id) {
      ids := Listed(set d | d in db.devices && db.devices[d].room == id);
    } else if kind == "zone" && Truthy(id) {
      ids := Listed(set d | d in db.devices && db.devices[d].zone == id);
    } else if kind == "group" && Truthy(id) {
      ids := Listed(set d | d in db.devices && id.value in db.groups && d in db.groups[id.value].attrs.members);
      assert ParseTargetType(kind) == Some(OneGroup);
    } else if kind == "all" {
      ids := Listed(db.devices.Keys);
    } else if kind == "all_except" {
      var excluded := set x | x in OrElse(excludes, []);
      ids := Listed(set d | d in db.devices && d !in excluded);
      assert ParseTargetType(kind) == Some(AllExcept);
    } else {
      ids := [];
    }
  }
}
