/** The nested hierarchy view: where each device appears in it. */
module Views {
  import opened Prelude
  import opened Stores
  import opened Envelopes
  import opened Exports
  import opened Databases
  import opened Queries
  import opened Backups
  import opened RestoreFacts

  datatype ZoneView = ZoneView(id: Id, devices: seq<Id>)
  datatype RoomView = RoomView(id: Id, zones: seq<ZoneView>, devices: seq<Id>)
  datatype View = View(rooms: seq<RoomView>, unassigned: seq<Id>)

  // ---------- What a view shows

  function FlatZones(zones: seq<ZoneView>): seq<Id>
    decreases |zones|
  {
    if zones == [] then [] else FlatZones(zones[..|zones| - 1]) + zones[|zones| - 1].devices
  }

  function FlatRooms(rooms: seq<RoomView>): seq<Id>
    decreases |rooms|
  {
    if rooms == [] then []
    else FlatRooms(rooms[..|rooms| - 1]) + FlatZones(rooms[|rooms| - 1].zones) + rooms[|rooms| - 1].devices
  }

  /** Every device id in the view, list after list. */
  function Flat(v: View): seq<Id> {
    FlatRooms(v.rooms) + v.unassigned
  }

  ghost function ZonesOf(st: Store, r: Id): set<Id> {
    set z | z in st.zones && st.zones[z].key.room == r
  }

  function ZoneIds(zones: seq<ZoneView>): (ids: seq<Id>)
    ensures |ids| == |zones| && forall k :: 0 <= k < |zones| ==> ids[k] == zones[k].id
  {
    seq(|zones|, k requires 0 <= k < |zones| => zones[k].id)
  }

  function RoomIds(rooms: seq<RoomView>): (ids: seq<Id>)
    ensures |ids| == |rooms| && forall k :: 0 <= k < |rooms| ==> ids[k] == rooms[k].id
  {
    seq(|rooms|, k requires 0 <= k < |rooms| => rooms[k].id)
  }

  ghost predicate ShowsRoom(st: Store, r: RoomView) {
    && Lists(ZoneIds(r.zones), ZonesOf(st, r.id))
    && (forall k :: 0 <= k < |r.zones| ==> Lists(r.zones[k].devices, InZone(st, r.zones[k].id)))
    && Lists(r.devices, UnzonedIn(st, r.id))
  }

  /** A device counts as assigned once it is in a listed zone or in an existing room, whether or not
      that room's own list shows it. */
  ghost predicate Assigned(st: Store, d: Device) {
    (d.zone.Some? && d.zone.value in st.zones && st.zones[d.zone.value].key.room in st.rooms)
        || (d.room.Some? && d.room.value in st.rooms)
  }

  ghost function Unassigned(st: Store): set<Id> {
    set d | d in st.devices && !Assigned(st, st.devices[d])
  }

  ghost predicate IsView(st: Store, v: View) {
    && Lists(RoomIds(v.rooms), st.rooms.Keys)
    && (forall k :: 0 <= k < |v.rooms| ==> ShowsRoom(st, v.rooms[k]))
    && Lists(v.unassigned, Unassigned(st))
  }

  /** A device in an existing room whose zone reference leads to no listed zone: it is in no list. */
  ghost predicate Lost(st: Store, d: Device) {
    Assigned(st, d) && ShownRoom(st, d).None?
  }

  /** Such a device has a room that exists, and a zone that does not or that lies in no room that exists. */
  lemma LostIff(st: Store, d: Device)
    ensures Lost(st, d) <==>
              && d.room.Some? && d.room.value in st.rooms && d.zone.Some?
              && !(d.zone.value in st.zones && st.zones[d.zone.value].key.room in st.rooms)
  {
  }

  ghost function NotLost(st: Store): set<Id> {
    set d | d in st.devices && !Lost(st, st.devices[d])
  }

  lemma ListsConcat<T(!new)>(a: seq<T>, b: seq<T>, xs: set<T>, ys: set<T>)
    requires Lists(a, xs) && Lists(b, ys) && xs !! ys
    ensures Lists(a + b, xs + ys)
  {
    forall i, j | 0 <= i < j < |a + b|
      ensures (a + b)[i] != (a + b)[j]
    {
      if i < |a| <= j {
        assert a[i] in xs && b[j - |a|] in ys;
      }
    }
    forall x | x in xs + ys
      ensures x in a + b
    {
      assert x in a || x in b;
    }
  }

  ghost function InZones(st: Store, zones: seq<Id>): set<Id> {
    set d | d in st.devices && st.devices[d].zone.Some? && st.devices[d].zone.value in zones
  }

  lemma {:induction false} FlatZonesLists(st: Store, zones: seq<ZoneView>)
    requires NoDuplicates(ZoneIds(zones))
    requires forall k :: 0 <= k < |zones| ==> Lists(zones[k].devices, InZone(st, zones[k].id))
    ensures Lists(FlatZones(zones), InZones(st, ZoneIds(zones)))
    decreases |zones|
  {
    if zones != [] {
      var n := |zones| - 1;
      assert ZoneIds(zones) == ZoneIds(zones[..n]) + [zones[n].id];
      FlatZonesLists(st, zones[..n]);
      ListsConcat(FlatZones(zones[..n]), zones[n].devices, InZones(st, ZoneIds(zones[..n])), InZone(st, zones[n].id));
      assert InZones(st, ZoneIds(zones)) == InZones(st, ZoneIds(zones[..n])) + InZone(st, zones[n].id);
    }
  }

  ghost function ShownIn(st: Store, rooms: seq<Id>): set<Id> {
    set d | d in st.devices && ShownRoom(st, st.devices[d]).Some? && ShownRoom(st, st.devices[d]).value in rooms
  }

  /** A room's lists hold exactly the devices shown in it. */
  ghost predicate ListsRoom(st: Store, r: RoomView) {
    Lists(FlatZones(r.zones) + r.devices, ShownIn(st, [r.id]))
  }

  lemma RoomLists(st: Store, r: RoomView)
    requires r.id in st.rooms && ShowsRoom(st, r)
    ensures ListsRoom(st, r)
  {
    FlatZonesLists(st, r.zones);
    ListsConcat(FlatZones(r.zones), r.devices, InZones(st, ZoneIds(r.zones)), UnzonedIn(st, r.id));
    forall d | d in st.devices
      ensures d in ShownIn(st, [r.id]) <==> d in InZones(st, ZoneIds(r.zones)) || d in UnzonedIn(st, r.id)
    {
      if st.devices[d].zone.Some? {
        var z := st.devices[d].zone.value;
        assert z in ZoneIds(r.zones) <==> z in ZonesOf(st, r.id);
      }
    }
    assert ShownIn(st, [r.id]) == InZones(st, ZoneIds(r.zones)) + UnzonedIn(st, r.id);
  }

  lemma ShownInOneMore(st: Store, rooms: seq<Id>, r: Id)
    requires r !in rooms
    ensures ShownIn(st, rooms + [r]) == ShownIn(st, rooms) + ShownIn(st, [r]) && ShownIn(st, rooms) !! ShownIn(st, [r])
  {
  }

  lemma {:induction false} FlatRoomsLists(st: Store, rooms: seq<RoomView>)
    requires NoDuplicates(RoomIds(rooms))
    requires forall k :: 0 <= k < |rooms| ==> ListsRoom(st, rooms[k])
    ensures Lists(FlatRooms(rooms), ShownIn(st, RoomIds(rooms)))
    decreases |rooms|
  {
    hide FlatZones;
    if rooms == [] {
      assert ShownIn(st, RoomIds(rooms)) == {};
    } else {
      hide Lists, ShownIn;
      var n := |rooms| - 1;
      var front, last := rooms[..n], rooms[n];
      FlatRoomsLists(st, front);
      assert RoomIds(rooms) == RoomIds(front) + [last.id];
      assert last.id !in RoomIds(front);
      ShownInOneMore(st, RoomIds(front), last.id);
      ListsConcat(FlatRooms(front), FlatZones(last.zones) + last.devices, ShownIn(st, RoomIds(front)),
                  ShownIn(st, [last.id]));
      assert FlatRooms(rooms) == FlatRooms(front) + (FlatZones(last.zones) + last.devices);
    }
  }

  /** The view lists every device that is not lost exactly once, and no lost device at all. */
  lemma ViewShowsEachOnce(st: Store, v: View)
    requires IsView(st, v)
    ensures Lists(Flat(v), NotLost(st))
  {
    forall k | 0 <= k < |v.rooms| ensures ListsRoom(st, v.rooms[k]) {
      assert RoomIds(v.rooms)[k] in st.rooms.Keys;
      RoomLists(st, v.rooms[k]);
    }
    FlatRoomsLists(st, v.rooms);
    ListsConcat(FlatRooms(v.rooms), v.unassigned, ShownIn(st, RoomIds(v.rooms)), Unassigned(st));
    forall r | r in st.rooms ensures r in RoomIds(v.rooms) {
      assert r in st.rooms.Keys;
    }
    assert ShownIn(st, RoomIds(v.rooms)) + Unassigned(st) == NotLost(st);
  }

  // ---------- Nothing gets lost

  /** The view is a partition of the devices. */
  ghost predicate NoneLost(st: Store) {
    forall d :: d in st.devices ==> !Lost(st, st.devices[d])
  }

  lemma PartitionIffNoneLost(st: Store, v: View)
    requires IsView(st, v)
    ensures Lists(Flat(v), st.devices.Keys) <==> NoneLost(st)
  {
    ViewShowsEachOnce(st, v);
    if Lists(Flat(v), st.devices.Keys) {
      forall d | d in st.devices ensures !Lost(st, st.devices[d]) {
        assert d in st.devices.Keys;
        assert d in Flat(v);
        var k :| 0 <= k < |Flat(v)| && Flat(v)[k] == d;
        assert Flat(v)[k] in NotLost(st);
      }
    }
    if NoneLost(st) {
      assert NotLost(st) == st.devices.Keys;
    }
  }

  lemma ZoneDeletionKeepsPartition(st: Store, z: Id)
    requires NoneLost(st)
    ensures NoneLost(WithoutZone(st, z))
  {
    var after := WithoutZone(st, z);
    forall d | d in st.devices ensures !Lost(after, after.devices[d]) {
      assert !Lost(st, st.devices[d]);
    }
  }

  lemma RoomDeletionLosesNone(st: Store, r: Id, d: Id)
    requires d in st.devices && !Lost(st, st.devices[d])
    ensures !Lost(WithoutRoom(st, r), WithoutRoom(st, r).devices[d])
  {
  }

  /** Deleting a room, which deletes its zones, keeps the partition. */
  lemma RoomDeletionKeepsPartition(st: Store, r: Id)
    requires NoneLost(st)
    ensures NoneLost(WithoutRoom(st, r))
  {
    forall d | d in st.devices ensures !Lost(WithoutRoom(st, r), WithoutRoom(st, r).devices[d]) {
      RoomDeletionLosesNone(st, r, d);
    }
  }

  /** Assigning a device keeps the partition exactly when the new placement does not lose it. */
  lemma AssignmentKeepsPartition(st: Store, d: Id, room: Option<Id>, zone: Option<Id>)
    requires NoneLost(st) && d in st.devices
    ensures
      var after := st.(devices := st.devices[d := st.devices[d].(room := room, zone := zone)]);
      NoneLost(after) <==>
        || zone.None? || (zone.value in st.zones && st.zones[zone.value].key.room in st.rooms)
        || room.None? || room.value !in st.rooms
  {
    var after := st.(devices := st.devices[d := st.devices[d].(room := room, zone := zone)]);
    assert forall e :: e in after.devices && e != d ==> (Lost(after, after.devices[e]) <==> Lost(st, st.devices[e]));
    assert NoneLost(after) ==> !Lost(after, after.devices[d]);
  }

  /** After a replace import the view is a partition, whatever the store was. */
  lemma ReplaceMakesPartition(st: Store, env: Envelope, user: Id, mint: Mint)
    requires Restore(st, env, Replace, user, mint).Ok?
    ensures NoneLost(After(st, env, Replace, user, mint))
  {
    ReplaceIsCoherent(st, env, user, mint);
    CoherentIsPartition(After(st, env, Replace, user, mint));
  }

  lemma CoherentIsPartition(st: Store)
    requires Coherent(st)
    ensures NoneLost(st)
  {
    forall d | d in st.devices ensures !Lost(st, st.devices[d]) {
      assert CoherentDevice(st, st.devices[d]);
    }
  }

  // ---------- Building the view

  method GetHierarchy(db: Database) returns (v: View)
    ensures IsView(db.Contents(), v)
    ensures RoomsOrdered(db.rooms, v.rooms)
  {
    hide Ascending, Lists, ShowsRoom, RoomsOrdered;
    var taken: set<Id> := {};
    var rooms: seq<RoomView> := [];
    var rank := map r | r in db.rooms :: db.rooms[r].attrs.sortOrder;
    var ids := OrderBy(rank);
    assert rank.Keys == db.rooms.Keys;
    for k := 0 to |ids|
      invariant RoomIds(rooms) == ids[..k]
      invariant forall j :: 0 <= j < |rooms| ==> ShowsRoom(db.Contents(), rooms[j])
      invariant taken == AssignedTo(db.Contents(), ids[..k])
    {
      var room, mine := RoomAt(db, ids[k]);
      rooms := rooms + [room];
      taken := taken + mine;
      assert ids[..k + 1] == ids[..k] + [ids[k]];
    }
    assert ids[..|ids|] == ids;
    var unassigned := Listed(db.devices.Keys - taken);
    AssignedToAll(db.Contents(), ids);
    v := View(rooms, unassigned);
    InSortOrder(db.rooms, rank, ids, rooms);
  }

  ghost predicate RoomsOrdered(table: map<Id, Room>, rooms: seq<RoomView>) {
    && (forall k :: 0 <= k < |rooms| ==> rooms[k].id in table)
    && (forall j, k :: 0 <= j < k < |rooms| ==>
        table[rooms[j].id].attrs.sortOrder <= table[rooms[k].id].attrs.sortOrder)
  }

  lemma InSortOrder(table: map<Id, Room>, rank: map<Id, int>, ids: seq<Id>, rooms: seq<RoomView>)
    requires rank == map r | r in table :: table[r].attrs.sortOrder
    requires Lists(ids, rank.Keys) && Ascending(ids, rank) && RoomIds(rooms) == ids
    ensures RoomsOrdered(table, rooms)
  {
    OrderedAndListed(ids, rank);
    assert forall k :: 0 <= k < |rooms| ==> rooms[k].id == ids[k];
  }

  /** The devices that the given rooms mark as assigned: those of their zones and their own. */
  ghost function AssignedTo(st: Store, rooms: seq<Id>): set<Id> {
    set d | d in st.devices &&
      (ZoneRoomIn(st, st.devices[d].zone, rooms) || (st.devices[d].room.Some? && st.devices[d].room.value in rooms))
  }

  ghost predicate ZoneRoomIn(st: Store, zone: Option<Id>, rooms: seq<Id>) {
    zone.Some? && zone.value in st.zones && st.zones[zone.value].key.room in rooms
  }

  lemma AssignedToAll(st: Store, rooms: seq<Id>)
    requires Lists(rooms, st.rooms.Keys)
    ensures st.devices.Keys - AssignedTo(st, rooms) == Unassigned(st)
  {
    forall r ensures r in rooms <==> r in st.rooms {
      if r in rooms {
        var k :| 0 <= k < |rooms| && rooms[k] == r;
        assert rooms[k] in st.rooms.Keys;
      }
      assert r in st.rooms.Keys ==> r in rooms;
    }
  }

  method RoomAt(db: Database, r: Id) returns (room: RoomView, taken: set<Id>)
    ensures room.id == r && ShowsRoom(db.Contents(), room)
    ensures taken == AssignedTo(db.Contents(), [r])
  {
    taken := {};
    var zones: seq<ZoneView> := [];
    var zoneIds := Listed(set z | z in db.zones && db.zones[z].key.room == r);
    for k := 0 to |zoneIds|
      invariant ZoneIds(zones) == zoneIds[..k]
      invariant forall j :: 0 <= j < |zones| ==> Lists(zones[j].devices, InZone(db.Contents(), zones[j].id))
      invariant taken == InZones(db.Contents(), zoneIds[..k])
    {
      var mine := set d | d in db.devices && db.devices[d].zone == Some(zoneIds[k]);
      var listed := Listed(mine);
      zones := zones + [ZoneView(zoneIds[k], listed)];
      taken := taken + mine;
      assert zoneIds[..k + 1] == zoneIds[..k] + [zoneIds[k]];
    }
    assert zoneIds[..|zoneIds|] == zoneIds;
    var unzoned := Listed(set d | d in db.devices && db.devices[d].room == Some(r) && db.devices[d].zone == None);
    taken := taken + set d | d in db.devices && db.devices[d].room == Some(r);
    room := RoomView(r, zones, unzoned);
    ZonesAssign(db.Contents(), r, zoneIds);
  }

  lemma ZonesAssign(st: Store, r: Id, zones: seq<Id>)
    requires Lists(zones, ZonesOf(st, r))
    ensures InZones(st, zones) + (set d | d in st.devices && st.devices[d].room == Some(r)) == AssignedTo(st, [r])
  {
    forall z ensures z in zones <==> z in ZonesOf(st, r) {
      if z in zones {
        var k :| 0 <= k < |zones| && zones[k] == z;
        assert zones[k] in ZonesOf(st, r);
      }
    }
  }
}
