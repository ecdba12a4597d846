/** The database session: tables that the services update in place, and the import that runs on them. */
module Databases {
  import opened Prelude
  import opened Stores
  import opened Envelopes
  import opened Hierarchy
  import opened HierarchyRerun
  import opened Backups

  // ---------- One more item, one more row

  lemma RenameStep(devices: map<Id, Device>, items: seq<DeviceItem>, item: DeviceItem)
    requires UniqueMacs(devices)
    ensures
      var before, after := RenameAll(devices, items), RenameAll(devices, items + [item]);
      if Truthy(item.mac) && Local(devices, item.mac.value).Some? && Truthy(item.name) then
        var d := Local(devices, item.mac.value).value;
        after == before[d := before[d].(name := item.name.value)]
      else after == before
  {
    assert (items + [item])[..|items|] == items;
    var before, after := RenameAll(devices, items), RenameAll(devices, items + [item]);
    forall d | d in devices
      ensures after[d] == if Truthy(item.mac) && item.mac.value == devices[d].mac && Truthy(item.name)
                          then before[d].(name := item.name.value) else before[d]
    {
    }
  }

  lemma PlaceStep(devices: map<Id, Device>, log: seq<Mention>, m: Mention)
    requires UniqueMacs(devices)
    ensures
      var before, after := PlaceAll(devices, log), PlaceAll(devices, log + [m]);
      if Local(devices, m.mac).Some? then
        var d := Local(devices, m.mac).value;
        after == before[d := before[d].(room := Some(m.room), zone := m.zone)]
      else after == before
  {
    assert (log + [m])[..|log|] == log;
    var before, after := PlaceAll(devices, log), PlaceAll(devices, log + [m]);
    forall d | d in devices
      ensures after[d] == if m.mac == devices[d].mac then before[d].(room := Some(m.room), zone := m.zone)
          else before[d]
    {
      PlacedRest(devices[d], log);
    }
  }

  lemma {:induction false} PlacedRest(d: Device, log: seq<Mention>)
    ensures Placed(d, log).(room := d.room, zone := d.zone) == d
    decreases |log|
  {
    if log != [] {
      PlacedRest(d, log[..|log| - 1]);
    }
  }

  lemma {:induction false} PlacedConcat(d: Device, a: seq<Mention>, b: seq<Mention>)
    ensures Placed(d, a + b) == Placed(Placed(d, a), b)
    decreases |b|
  {
    if b == [] {
      assert a + b == a;
    } else {
      var n := |b| - 1;
      assert (a + b)[..|a| + n] == a + b[..n];
      PlacedRest(d, a);
      PlacedRest(Placed(d, a), b[..n]);
      PlacedConcat(d, a, b[..n]);
    }
  }

  lemma PlaceAllConcat(devices: map<Id, Device>, a: seq<Mention>, b: seq<Mention>)
    ensures PlaceAll(PlaceAll(devices, a), b) == PlaceAll(devices, a + b)
  {
    forall d | d in devices ensures Placed(devices[d], a + b) == Placed(Placed(devices[d], a), b) {
      PlacedConcat(devices[d], a, b);
    }
  }

  /** Deleting a zone takes its devices out of it. */
  ghost function WithoutZone(st: Store, z: Id): Store {
    st.(zones := st.zones - {z},
        devices := map d | d in st.devices ::
          if st.devices[d].zone == Some(z) then st.devices[d].(zone := None) else st.devices[d])
  }

  /** Deleting a room deletes its zones, and takes its devices and theirs out. */
  ghost function WithoutRoom(st: Store, r: Id): Store {
    st.(rooms := st.rooms - {r},
        zones := map z | z in st.zones && st.zones[z].key.room != r :: st.zones[z],
        devices := map d | d in st.devices ::
          st.devices[d].(
            room := if st.devices[d].room == Some(r) then None else st.devices[d].room,
            zone := if ZoneOf(st, st.devices[d].zone, r) then None else st.devices[d].zone))
  }

  lemma RoomCleared(st: Store, r: Id, mine: set<Id>, left: map<Id, Device>)
    requires forall z :: z in mine <==> z in st.zones && st.zones[z].key.room == r
    requires left == map d | d in st.devices ::
               st.devices[d].(
                 room := if st.devices[d].room == Some(r) then None else st.devices[d].room,
                 zone := if st.devices[d].zone.Some? && st.devices[d].zone.value in mine then None
                     else st.devices[d].zone)
    ensures left == WithoutRoom(st, r).devices
  {
    forall d | d in st.devices ensures left[d] == WithoutRoom(st, r).devices[d] {
      assert ZoneOf(st, st.devices[d].zone, r) <==> st.devices[d].zone.Some? && st.devices[d].zone.value in mine;
    }
  }

  ghost predicate ZoneOf(st: Store, zone: Option<Id>, r: Id) {
    zone.Some? && zone.value in st.zones && st.zones[zone.value].key.room == r
  }

  lemma NextMember(devices: map<Id, Device>, macs: seq<Mac>, k: nat)
    requires k < |macs|
    ensures Members(devices, macs[..k + 1]) ==
            Members(devices, macs[..k]) + if Local(devices, macs[k]).Some? then {Local(devices, macs[k]).value} else {}
    ensures Repeats(devices, macs[..k + 1]) <==>
            Repeats(devices, macs[..k])
                || (Local(devices, macs[k]).Some? && Local(devices, macs[k]).value in Members(devices, macs[..k]))
  {
    var front, more := macs[..k], macs[..k + 1];
    assert forall j :: 0 <= j < k ==> front[j] == more[j];
    assert more[k] == macs[k];
    forall d ensures d in Members(devices, more) <==>
        d in Members(devices, front) || Local(devices, macs[k]) == Some(d) {
      if j :| 0 <= j < k + 1 && Local(devices, more[j]) == Some(d) {
        assert j == k || Local(devices, front[j]) == Some(d);
      }
      if j :| 0 <= j < k && Local(devices, front[j]) == Some(d) {
        assert Local(devices, more[j]) == Some(d);
      }
      if Local(devices, macs[k]) == Some(d) {
        assert Local(devices, more[k]) == Some(d);
      }
    }
    if i, j :| 0 <= i < j < |more| && more[i] == more[j] && Local(devices, more[i]).Some? {
      assert j == k || (front[i] == front[j] && Local(devices, front[i]).Some?);
    }
    if i, j :| 0 <= i < j < |front| && front[i] == front[j] && Local(devices, front[i]).Some? {
      assert more[i] == more[j];
    }
    if Local(devices, macs[k]).Some? && Local(devices, macs[k]).value in Members(devices, front) {
      var j :| 0 <= j < k && Local(devices, front[j]) == Local(devices, macs[k]);
      assert more[j] == more[k];
    }
  }

  // ---------- A session in the middle of a hierarchy import

  ghost predicate Indexes(index: map<Mac, Id>, devices: map<Id, Device>) {
    forall mac :: if Local(devices, mac).Some? then mac in index && index[mac] == Local(devices, mac).value
        else mac !in index
  }

  ghost function RoomRow(table: map<Id, Room>, mode: Mode, item: RoomItem, drawn: Id): Result<Id, Error> {
    if item.name.None? then Err(MissingKey) else RowFor(table, mode, item.id, item.name.value, true, drawn)
  }

  ghost function ZoneRow(table: map<Id, Zone>, mode: Mode, item: ZoneItem, room: Id, drawn: Id): Result<Id, Error> {
    if item.name.None? then Err(MissingKey)
        else RowFor(table, mode, item.id, ZoneKey(item.name.value, room), false, drawn)
  }

  ghost function GroupRow(table: map<Id, Group>, devices: map<Id, Device>, mode: Mode, item: GroupItem,
                          drawn: Id): Result<Id, Error> {
    if item.name.None? then Err(MissingKey)
    else
      var i :- RowFor(table, mode, item.id, item.name.value, true, drawn);
      if Repeats(devices, item.macs) then Err(Collision) else Ok(i)
  }

  ghost function RoomOf(item: RoomItem): Room {
    Keyed(OrElse(item.name, ""), Look(item.icon, OrElse(item.sortOrder, 0)))
  }

  ghost function ZoneIn(item: ZoneItem, room: Id): Zone {
    Keyed(ZoneKey(OrElse(item.name, ""), room), Look(item.icon, OrElse(item.sortOrder, 0)))
  }

  ghost function GroupOf(item: GroupItem, devices: map<Id, Device>): Group {
    Keyed(OrElse(item.name, ""), Roster(Look(item.icon, OrElse(item.sortOrder, 0)), Members(devices, item.macs)))
  }

  /** The store once the writes of a run are made. */
  ghost function Standing(job: Job, h: Hier): Store {
    job.base.(devices := PlaceAll(job.base.devices, h.log), rooms := Rooms(job, h), zones := Zones(job, h),
              groups := Groups(job, h))
  }

  ghost predicate Stands(job: Job, doc: seq<Step>, st: Store, remap: map<Id, Id>) {
    && UniqueMacs(job.base.devices)
    && Run(job, doc).Ok? && st == Standing(job, Run(job, doc).value) && remap == Run(job, doc).value.remap
  }

  /** The session has taken the document so far, or fails as its run does. */
  ghost predicate Proceeds(job: Job, doc: seq<Step>, st: Store, r: Result<map<Id, Id>, Error>) {
    match r
    case Ok(remap) => Stands(job, doc, st, remap)
    case Err(e) => Run(job, doc) == Err(e)
  }

  lemma NextPrefix(all: seq<Step>, k: nat, s: Step)
    requires k < |all| && all[k] == s
    ensures all[..k + 1] == all[..k] + [s] && all == all[..k + 1] + all[k + 1..]
  {
  }

  /** From entry `n` on, the document `all` consists of `rest`. */
  ghost predicate Continues(all: seq<Step>, n: nat, rest: seq<Step>) {
    && |all| == n + |rest|
    && forall k :: n <= k < |all| ==> all[k] == rest[k - n]
  }

  lemma ProceedsAll(job: Job, all: seq<Step>, k: nat, st: Store, r: Result<map<Id, Id>, Error>)
    requires k == |all| && Proceeds(job, all[..k], st, r)
    ensures Proceeds(job, all, st, r)
  {
    assert all[..k] == all;
  }

  lemma Continued(front: seq<Step>, rest: seq<Step>)
    ensures Continues(front + rest, |front|, rest) && (front + rest)[..|front|] == front
  {
  }

  /** A step taken after a prefix of the document; a refused one decides the whole run. */
  lemma ProceedsTo(job: Job, all: seq<Step>, k: nat, s: Step, st: Store, r: Result<map<Id, Id>, Error>)
    requires k < |all| && all[k] == s && Proceeds(job, all[..k] + [s], st, r)
    ensures Proceeds(job, all[..k + 1], st, r)
    ensures r.Err? ==> Proceeds(job, all, st, r)
  {
    NextPrefix(all, k, s);
    if r.Err? {
      RunFailure(job, all[..k + 1], all[k + 1..]);
    }
  }

  lemma NextRoom(rooms: seq<RoomItem>, i: nat) returns (rest: seq<Step>)
    requires i < |rooms|
    ensures
      var taken := RoomSteps(rooms[..i]) + [RoomStep(rooms[i])];
      && RoomSteps(rooms[..i + 1]) == taken + ZoneSteps(rooms[i], rooms[i].zones)
      && RoomSteps(rooms) == RoomSteps(rooms[..i + 1]) + rest
      && RoomSteps(rooms) == taken + (ZoneSteps(rooms[i], rooms[i].zones) + rest)
  {
    assert rooms[..i + 1][..i] == rooms[..i];
    rest := RoomStepsPrefix(rooms, i + 1);
  }

  lemma IndexKept(index: map<Mac, Id>, a: map<Id, Device>, b: map<Id, Device>)
    requires UniqueMacs(a) && SameHardware(a, b) && Indexes(index, a)
    ensures Indexes(index, b)
  {
    forall mac ensures Local(a, mac) == Local(b, mac) {
      LocalOfSameHardware(a, b, mac);
    }
  }

  lemma StartStanding(job: Job)
    requires UniqueMacs(job.base.devices)
    ensures Stands(job, [], job.base, map[])
  {
    assert job.base.rooms + map[] == job.base.rooms;
    assert job.base.zones + map[] == job.base.zones;
    assert job.base.groups + map[] == job.base.groups;
    assert PlaceAll(job.base.devices, []) == job.base.devices;
  }

  lemma RoomTaken(job: Job, doc: seq<Step>, st: Store, remap: map<Id, Id>, item: RoomItem, i: Id)
    requires Stands(job, doc, st, remap) && RoomRow(st.rooms, job.mode, item, job.mint(|doc|)) == Ok(i)
    ensures
      var after := st.(rooms := st.rooms[i := RoomOf(item)],
                       devices := PlaceAll(st.devices, Mentions(item.macs, i, None)));
      && Stands(job, doc + [RoomStep(item)], after, Note(remap, item.id, i))
      && Run(job, doc + [RoomStep(item)]).value.cur == i
  {
    var h := Run(job, doc).value;
    assert (doc + [RoomStep(item)])[..|doc|] == doc;
    OverlayUpdate(job.base.rooms, h.rooms, i, RoomOf(item));
    PlaceAllConcat(job.base.devices, h.log, Mentions(item.macs, i, None));
  }

  lemma RoomRefused(job: Job, doc: seq<Step>, st: Store, remap: map<Id, Id>, item: RoomItem, e: Error)
    requires Stands(job, doc, st, remap) && RoomRow(st.rooms, job.mode, item, job.mint(|doc|)) == Err(e)
    ensures Run(job, doc + [RoomStep(item)]) == Err(e)
  {
    assert (doc + [RoomStep(item)])[..|doc|] == doc;
  }

  lemma ZoneTaken(job: Job, doc: seq<Step>, st: Store, remap: map<Id, Id>, parent: RoomItem, item: ZoneItem, i: Id)
    requires Stands(job, doc, st, remap)
        && ZoneRow(st.zones, job.mode, item, Run(job, doc).value.cur, job.mint(|doc|)) == Ok(i)
    ensures
      var room := Run(job, doc).value.cur;
      var after := st.(zones := st.zones[i := ZoneIn(item, room)],
                       devices := PlaceAll(st.devices, Mentions(item.macs, room, Some(i))));
      && Stands(job, doc + [ZoneStep(parent, item)], after, Note(remap, item.id, i))
      && Run(job, doc + [ZoneStep(parent, item)]).value.cur == room
  {
    var h := Run(job, doc).value;
    assert (doc + [ZoneStep(parent, item)])[..|doc|] == doc;
    OverlayUpdate(job.base.zones, h.zones, i, ZoneIn(item, h.cur));
    PlaceAllConcat(job.base.devices, h.log, Mentions(item.macs, h.cur, Some(i)));
  }

  lemma ZoneRefused(job: Job, doc: seq<Step>, st: Store, remap: map<Id, Id>, parent: RoomItem, item: ZoneItem, e: Error)
    requires Stands(job, doc, st, remap)
        && ZoneRow(st.zones, job.mode, item, Run(job, doc).value.cur, job.mint(|doc|)) == Err(e)
    ensures Run(job, doc + [ZoneStep(parent, item)]) == Err(e)
  {
    assert (doc + [ZoneStep(parent, item)])[..|doc|] == doc;
  }

  lemma GroupTaken(job: Job, doc: seq<Step>, st: Store, remap: map<Id, Id>, item: GroupItem, i: Id)
    requires Stands(job, doc, st, remap) && GroupRow(st.groups, st.devices, job.mode, item, job.mint(|doc|)) == Ok(i)
    ensures
      var after := st.(groups := st.groups[i := GroupOf(item, st.devices)]);
      Stands(job, doc + [GroupStep(item)], after, Note(remap, item.id, i))
  {
    var h := Run(job, doc).value;
    assert (doc + [GroupStep(item)])[..|doc|] == doc;
    MembersOfSameHardware(job.base.devices, st.devices, item.macs);
    OverlayUpdate(job.base.groups, h.groups, i, GroupOf(item, st.devices));
  }

  lemma GroupRefused(job: Job, doc: seq<Step>, st: Store, remap: map<Id, Id>, item: GroupItem, e: Error)
    requires Stands(job, doc, st, remap) && GroupRow(st.groups, st.devices, job.mode, item, job.mint(|doc|)) == Err(e)
    ensures Run(job, doc + [GroupStep(item)]) == Err(e)
  {
    assert (doc + [GroupStep(item)])[..|doc|] == doc;
    MembersOfSameHardware(job.base.devices, st.devices, item.macs);
  }

  /** Devices differ at most in where they are placed. */
  ghost predicate SameButPlacement(a: map<Id, Device>, b: map<Id, Device>) {
    a.Keys == b.Keys && forall d :: d in a ==> b[d].mac == a[d].mac && b[d].name == a[d].name
  }

  class Database {
    var devices: map<Id, Device>
    var rooms: map<Id, Room>
    var zones: map<Id, Zone>
    var groups: map<Id, Group>
    var schedules: map<Id, Owned<Schedule>>
    var actions: map<Id, Owned<QuickAction>>
    var scenes: map<Id, Owned<Scene>>
    var committed: Store

    constructor (st: Store)
      ensures Contents() == st && committed == st
    {
      devices, rooms, zones, groups := st.devices, st.rooms, st.zones, st.groups;
      schedules, actions, scenes := st.schedules, st.actions, st.scenes;
      committed := st;
    }

    function Contents(): Store
      reads this
    {
      Store(devices, rooms, zones, groups, schedules, actions, scenes)
    }

    method Commit()
      modifies this`committed
      ensures committed == Contents()
    {
      committed := Contents();
    }

    method Rollback()
      modifies this
      ensures Contents() == old(committed) && committed == old(committed)
    {
      devices, rooms, zones, groups := committed.devices, committed.rooms, committed.zones, committed.groups;
      schedules, actions, scenes := committed.schedules, committed.actions, committed.scenes;
    }

    // ---------- Devices

    method DeviceByMac(mac: Mac) returns (r: Option<Id>)
      requires UniqueMacs(devices)
      ensures r == Local(devices, mac)
    {
      if exists d :: d in devices && devices[d].mac == mac {
        var d :| d in devices && devices[d].mac == mac;
        r := Some(d);
      } else {
        r := None;
      }
    }

    method AssignDevice(d: Id, room: Option<Id>, zone: Option<Id>) returns (found: bool)
      modifies this`devices
      ensures found <==> d in old(devices)
      ensures devices == if found then old(devices)[d := old(devices)[d].(room := room, zone := zone)] else old(devices)
    {
      found := d in devices;
      if found {
        devices := devices[d := devices[d].(room := room, zone := zone)];
      }
    }

    method ImportDevices(items: seq<DeviceItem>) returns (remap: map<Id, Id>)
      requires UniqueMacs(devices)
      modifies this`devices
      ensures devices == RenameAll(old(devices), items)
      ensures remap == DeviceRemap(old(devices), items)
    {
      remap := map[];
      assert devices == RenameAll(old(devices), items[..0]);
      for i := 0 to |items|
        invariant devices == RenameAll(old(devices), items[..i])
        invariant remap == DeviceRemap(old(devices), items[..i])
      {
        var item := items[i];
        assert items[..i + 1] == items[..i] + [item];
        RenameStep(old(devices), items[..i], item);
        if Truthy(item.mac) {
          LocalOfSameHardware(old(devices), devices, item.mac.value);
          var device := DeviceByMac(item.mac.value);
          if device.Some? {
            if Truthy(item.name) {
              devices := devices[device.value := devices[device.value].(name := item.name.value)];
            }
            if Truthy(item.id) {
              remap := remap[item.id.value := device.value];
            }
          }
        }
      }
      assert items[..|items|] == items;
    }

    /** The devices of the session by MAC, as the hierarchy import looks them up. */
    method IndexByMac() returns (index: map<Mac, Id>)
      requires UniqueMacs(devices)
      ensures Indexes(index, devices)
    {
      index := map[];
      var left := devices.Keys;
      while left != {}
        invariant left <= devices.Keys
        invariant forall mac :: mac in index ==> Local(devices, mac) == Some(index[mac])
        invariant forall d :: d in devices && d !in left ==> devices[d].mac in index
        decreases |left|
      {
        var d :| d in left;
        LocalIs(devices, d);
        index := index[devices[d].mac := d];
        left := left - {d};
      }
    }

    method PlaceDevices(index: map<Mac, Id>, macs: seq<Mac>, room: Id, zone: Option<Id>)
      requires UniqueMacs(devices)
      requires Indexes(index, devices)
      modifies this`devices
      ensures devices == PlaceAll(old(devices), Mentions(macs, room, zone))
    {
      ghost var log := Mentions(macs, room, zone);
      assert devices == PlaceAll(old(devices), log[..0]);
      for i := 0 to |macs|
        invariant devices == PlaceAll(old(devices), log[..i])
      {
        assert log[..i + 1] == log[..i] + [log[i]];
        PlaceStep(old(devices), log[..i], log[i]);
        LocalOfSameHardware(old(devices), devices, macs[i]);
        if macs[i] in index {
          var d := index[macs[i]];
          devices := devices[d := devices[d].(room := Some(room), zone := zone)];
        }
      }
      assert log[..|macs|] == log;
    }

    // ---------- Deleting rooms, zones and groups

    method DeleteZone(z: Id) returns (found: bool)
      modifies this
      ensures found <==> z in old(zones)
      ensures Contents() == if found then WithoutZone(old(Contents()), z) else old(Contents())
      ensures committed == old(committed)
    {
      found := z in zones;
      if found {
        devices := map d | d in devices :: if devices[d].zone == Some(z) then devices[d].(zone := None) else devices[d];
        zones := zones - {z};
      }
    }

    method DeleteRoom(r: Id) returns (found: bool)
      modifies this
      ensures found <==> r in old(rooms)
      ensures Contents() == if found then WithoutRoom(old(Contents()), r) else old(Contents())
      ensures committed == old(committed)
    {
      found := r in rooms;
      if found {
        var mine := set z | z in zones && zones[z].key.room == r;
        devices := map d | d in devices ::
          devices[d].(
            room := if devices[d].room == Some(r) then None else devices[d].room,
            zone := if devices[d].zone.Some? && devices[d].zone.value in mine then None else devices[d].zone);
        RoomCleared(old(Contents()), r, mine, devices);
        zones := map z | z in zones && zones[z].key.room != r :: zones[z];
        rooms := rooms - {r};
      }
    }

    /** A group's name, icon and members are replaced; a device listed twice breaks the primary key. */
    method UpdateGroup(g: Id, name: string, icon: Option<string>, ids: seq<Id>) returns (r: Result<bool, Error>)
      modifies this`groups
      ensures r == if g !in old(groups) then Ok(false)
                   else if (exists i :: i in old(groups) && i != g && old(groups)[i].key == name)
                       || !NoDuplicates(ids) then Err(Collision)
                   else Ok(true)
      ensures groups == if r == Ok(true) then
                          old(groups)[g := Keyed(name,
                                                 Roster(old(groups)[g].attrs.look.(icon := icon), set d | d in ids))]
                        else old(groups)
    {
      if g !in groups {
        return Ok(false);
      }
      if exists i :: i in groups && i != g && groups[i].key == name {
        return Err(Collision);
      }
      var members: set<Id> := {};
      for k := 0 to |ids|
        invariant NoDuplicates(ids[..k]) && members == set d | d in ids[..k]
      {
        if ids[k] in members {
          assert !NoDuplicates(ids);
          return Err(Collision);
        }
        members := members + {ids[k]};
      }
      assert ids[..|ids|] == ids;
      groups := groups[g := Keyed(name, Roster(groups[g].attrs.look.(icon := icon), members))];
      return Ok(true);
    }

    method DeleteAllZones()
      modifies this
      ensures zones == map[] && SameButPlacement(old(devices), devices)
      ensures Contents() == old(Contents()).(zones := map[], devices := devices) && committed == old(committed)
    {
      while zones != map[]
        invariant SameButPlacement(old(devices), devices)
        invariant Contents() == old(Contents()).(zones := zones, devices := devices) && committed == old(committed)
        decreases |zones|
      {
        var z :| z in zones;
        var _ := DeleteZone(z);
      }
    }

    method DeleteAllRooms()
      requires zones == map[]
      modifies this
      ensures rooms == map[] && SameButPlacement(old(devices), devices)
      ensures Contents() == old(Contents()).(rooms := map[], devices := devices) && committed == old(committed)
    {
      while rooms != map[]
        invariant zones == map[] && SameButPlacement(old(devices), devices)
        invariant Contents() == old(Contents()).(rooms := rooms, devices := devices) && committed == old(committed)
        decreases |rooms|
      {
        var r :| r in rooms;
        label L:
        var _ := DeleteRoom(r);
        assert zones == old@L(zones);
      }
    }

    method WipeHierarchy()
      modifies this
      ensures Contents() == Wiped(old(Contents())) && committed == old(committed)
    {
      while groups != map[]
        invariant Contents() == old(Contents()).(groups := groups) && committed == old(committed)
        decreases |groups|
      {
        var g :| g in groups;
        groups := groups - {g};
      }
      DeleteAllZones();
      DeleteAllRooms();
      devices := map d | d in devices :: devices[d].(room := None, zone := None);
      assert devices == Unplaced(old(devices));
    }

    // ---------- Importing the hierarchy

    /** SQL's scalar_one_or_none over the rows with a key: at most one row, or an error. */
    static method OneOrNone<K(==,!new), A(!new)>(table: map<Id, Keyed<K, A>>, key: K)
        returns (r: Result<Option<Id>, Error>)
      ensures match r
              case Ok(None) => Hits(table, key) == {}
              case Ok(Some(i)) => Hits(table, key) == {i}
              case Err(e) => e == ManyRows && Hits(table, key) != {} && forall i :: Hits(table, key) != {i}
    {
      var hits := set i | i in table && table[i].key == key;
      assert hits == Hits(table, key);
      if hits == {} {
        return Ok(None);
      }
      var i :| i in hits;
      if hits == {i} {
        return Ok(Some(i));
      }
      return Err(ManyRows);
    }

    /** Finds or makes room for the row of an item: the merge lookup, then the insert's own checks. */
    static method FindRow<K(==,!new), A(!new)>(table: map<Id, Keyed<K, A>>, mode: Mode, id: Option<Id>, key: K,
                                               unique: bool, drawn: Id)
        returns (r: Result<Id, Error>)
      ensures r == RowFor(table, mode, id, key, unique, drawn)
    {
      if mode.Merge? {
        var existing :- OneOrNone(table, key);
        if existing.Some? {
          return Ok(existing.value);
        }
      }
      var i := if Truthy(id) then id.value else drawn;
      if i in table {
        return Err(Collision);
      }
      if unique && exists j :: j in table && table[j].key == key {
        assert Hits(table, key) != {};
        return Err(Collision);
      }
      assert unique ==> Hits(table, key) == {};
      return Ok(i);
    }

    method ImportRoom(item: RoomItem, mode: Mode, drawn: Id, index: map<Mac, Id>) returns (r: Result<Id, Error>)
      requires UniqueMacs(devices) && Indexes(index, devices)
      modifies this`devices, this`rooms
      ensures r == RoomRow(old(rooms), mode, item, drawn)
      ensures r.Ok? ==> rooms == old(rooms)[r.value := RoomOf(item)]
      ensures r.Ok? ==> devices == PlaceAll(old(devices), Mentions(item.macs, r.value, None))
      ensures SameHardware(old(devices), devices)
    {
      if item.name.None? {
        return Err(MissingKey);
      }
      r := FindRow(rooms, mode, item.id, item.name.value, true, drawn);
      if r.Ok? {
        rooms := rooms[r.value := Keyed(item.name.value, Look(item.icon, OrElse(item.sortOrder, 0)))];
        PlaceDevices(index, item.macs, r.value, None);
      }
    }

    method ImportZone(item: ZoneItem, mode: Mode, drawn: Id, index: map<Mac, Id>, room: Id)
        returns (r: Result<Id, Error>)
      requires UniqueMacs(devices) && Indexes(index, devices)
      modifies this`devices, this`zones
      ensures r == ZoneRow(old(zones), mode, item, room, drawn)
      ensures r.Ok? ==> zones == old(zones)[r.value := ZoneIn(item, room)]
      ensures r.Ok? ==> devices == PlaceAll(old(devices), Mentions(item.macs, room, Some(r.value)))
      ensures SameHardware(old(devices), devices)
    {
      if item.name.None? {
        return Err(MissingKey);
      }
      var key := ZoneKey(item.name.value, room);
      r := FindRow(zones, mode, item.id, key, false, drawn);
      if r.Ok? {
        zones := zones[r.value := Keyed(key, Look(item.icon, OrElse(item.sortOrder, 0)))];
        PlaceDevices(index, item.macs, room, Some(r.value));
      }
    }

    /** Adds the known devices to a group; adding one twice breaks the membership table's primary key. */
    method CollectMembers(index: map<Mac, Id>, macs: seq<Mac>) returns (r: Result<set<Id>, Error>)
      requires UniqueMacs(devices)
      requires Indexes(index, devices)
      ensures r == if Repeats(devices, macs) then Err(Collision) else Ok(Members(devices, macs))
    {
      var members := {};
      for k := 0 to |macs|
        invariant !Repeats(devices, macs[..k]) && members == Members(devices, macs[..k])
      {
        if macs[k] in index {
          var d := index[macs[k]];
          if d in members {
            ghost var j :| 0 <= j < k && Local(devices, macs[..k][j]) == Some(d);
            assert macs[j] == macs[k];
            return Err(Collision);
          }
          members := members + {d};
        }
        NextMember(devices, macs, k);
      }
      assert macs[..|macs|] == macs;
      r := Ok(members);
    }

    method ImportGroup(item: GroupItem, mode: Mode, drawn: Id, index: map<Mac, Id>) returns (r: Result<Id, Error>)
      requires UniqueMacs(devices) && Indexes(index, devices)
      modifies this`groups
      ensures r == GroupRow(old(groups), devices, mode, item, drawn)
      ensures r.Ok? ==> groups == old(groups)[r.value := GroupOf(item, devices)]
    {
      if item.name.None? {
        return Err(MissingKey);
      }
      r := FindRow(groups, mode, item.id, item.name.value, true, drawn);
      if r.Ok? {
        var members := CollectMembers(index, item.macs);
        if members.Err? {
          return Err(members.error);
        }
        groups := groups[r.value := Keyed(item.name.value,
                                          Roster(Look(item.icon, OrElse(item.sortOrder, 0)), members.value))];
      }
    }

    method TakeRoom(ghost job: Job, ghost doc: seq<Step>, room: RoomItem, mode: Mode, drawn: Id, index: map<Mac, Id>,
                    remap: map<Id, Id>)
        returns (r: Result<map<Id, Id>, Error>, row: Id)
      requires Stands(job, doc, Contents(), remap) && Indexes(index, devices) && mode == job.mode
          && drawn == job.mint(|doc|)
      modifies this`devices, this`rooms
      ensures Proceeds(job, doc + [RoomStep(room)], Contents(), r)
      ensures r.Ok? ==> Run(job, doc + [RoomStep(room)]).value.cur == row
      ensures Indexes(index, devices)
    {
      ghost var st := Contents();
      row := "";
      var i := ImportRoom(room, mode, drawn, index);
      IndexKept(index, st.devices, devices);
      if i.Err? {
        RoomRefused(job, doc, st, remap, room, i.error);
        return Err(i.error), row;
      }
      RoomTaken(job, doc, st, remap, room, i.value);
      r, row := Ok(Note(remap, room.id, i.value)), i.value;
    }

    method TakeZone(ghost job: Job, ghost doc: seq<Step>, ghost room: RoomItem, zone: ZoneItem, mode: Mode, drawn: Id,
                    index: map<Mac, Id>, remap: map<Id, Id>, row: Id) returns (r: Result<map<Id, Id>, Error>)
      requires Stands(job, doc, Contents(), remap) && Indexes(index, devices) && mode == job.mode
          && drawn == job.mint(|doc|)
      requires Run(job, doc).value.cur == row
      modifies this`devices, this`zones
      ensures Proceeds(job, doc + [ZoneStep(room, zone)], Contents(), r)
      ensures r.Ok? ==> Run(job, doc + [ZoneStep(room, zone)]).value.cur == row
      ensures Indexes(index, devices)
    {
      ghost var st := Contents();
      var i := ImportZone(zone, mode, drawn, index, row);
      IndexKept(index, st.devices, devices);
      if i.Err? {
        ZoneRefused(job, doc, st, remap, room, zone, i.error);
        return Err(i.error);
      }
      ZoneTaken(job, doc, st, remap, room, zone, i.value);
      r := Ok(Note(remap, zone.id, i.value));
    }

    method TakeGroup(ghost job: Job, ghost doc: seq<Step>, group: GroupItem, mode: Mode, drawn: Id, index: map<Mac, Id>,
                     remap: map<Id, Id>)
        returns (r: Result<map<Id, Id>, Error>)
      requires Stands(job, doc, Contents(), remap) && Indexes(index, devices) && mode == job.mode
          && drawn == job.mint(|doc|)
      modifies this`groups
      ensures Proceeds(job, doc + [GroupStep(group)], Contents(), r)
    {
      ghost var st := Contents();
      var i := ImportGroup(group, mode, drawn, index);
      if i.Err? {
        GroupRefused(job, doc, st, remap, group, i.error);
        return Err(i.error);
      }
      GroupTaken(job, doc, st, remap, group, i.value);
      r := Ok(Note(remap, group.id, i.value));
    }

    /** The zone that comes next in the whole document. */
    method TakeNextZone(ghost job: Job, ghost all: seq<Step>, ghost room: RoomItem, zone: ZoneItem, mode: Mode,
                        mint: nat -> Id, n: nat,
                        index: map<Mac, Id>, remap: map<Id, Id>, row: Id) returns (r: Result<map<Id, Id>, Error>)
      requires n < |all| && all[n] == ZoneStep(room, zone) && Stands(job, all[..n], Contents(), remap)
      requires Indexes(index, devices) && mode == job.mode && mint == job.mint && Run(job, all[..n]).value.cur == row
      modifies this`devices, this`zones
      ensures Proceeds(job, all[..n + 1], Contents(), r)
      ensures r.Ok? ==> Run(job, all[..n + 1]).value.cur == row
      ensures r.Err? ==> Proceeds(job, all, Contents(), r)
      ensures Indexes(index, devices)
    {
      r := TakeZone(job, all[..n], room, zone, mode, mint(n), index, remap, row);
      NextPrefix(all, n, ZoneStep(room, zone));
      ProceedsTo(job, all, n, ZoneStep(room, zone), Contents(), r);
    }

    /** The zones of one room, into the row the room was stored in: entries `n` and on of the document `all`. */
    method ImportZones(ghost job: Job, ghost all: seq<Step>, room: RoomItem, mode: Mode, mint: nat -> Id, n: nat,
                       index: map<Mac, Id>, given: map<Id, Id>, row: Id) returns (r: Result<map<Id, Id>, Error>)
      requires Continues(all, n, ZoneSteps(room, room.zones)) && Stands(job, all[..n], Contents(), given)
      requires Indexes(index, devices) && mode == job.mode && mint == job.mint && Run(job, all[..n]).value.cur == row
      modifies this`devices, this`zones
      ensures Proceeds(job, all, Contents(), r)
      ensures Indexes(index, devices)
    {
      hide Run;
      r := Ok(given);
      for k := n to n + |room.zones|
        invariant r.Ok? && Proceeds(job, all[..k], Contents(), r)
        invariant Run(job, all[..k]).value.cur == row && Indexes(index, devices)
      {
        r := TakeNextZone(job, all, room, room.zones[k - n], mode, mint, k, index, r.value, row);
        if r.Err? {
          return;
        }
      }
      ProceedsAll(job, all, n + |room.zones|, Contents(), r);
    }

    method ImportRooms(ghost job: Job, rooms: seq<RoomItem>, mode: Mode, mint: nat -> Id, index: map<Mac, Id>)
        returns (r: Result<map<Id, Id>, Error>, n: nat)
      requires Stands(job, [], Contents(), map[]) && Indexes(index, devices) && mode == job.mode && mint == job.mint
      modifies this`devices, this`rooms, this`zones
      ensures Proceeds(job, RoomSteps(rooms), Contents(), r)
      ensures r.Ok? ==> n == |RoomSteps(rooms)|
      ensures Indexes(index, devices)
    {
      hide Run;
      r, n := Ok(map[]), 0;
      for i := 0 to |rooms|
        invariant Proceeds(job, RoomSteps(rooms[..i]), Contents(), r) && Indexes(index, devices)
        invariant r.Ok? && n == |RoomSteps(rooms[..i])|
      {
        var room, row := rooms[i], "";
        ghost var doc := RoomSteps(rooms[..i]);
        ghost var rest := NextRoom(rooms, i);
        r, row := TakeRoom(job, doc, room, mode, mint(n), index, r.value);
        if r.Err? {
          RunFailure(job, doc + [RoomStep(room)], ZoneSteps(room, room.zones) + rest);
          return;
        }
        Continued(doc + [RoomStep(room)], ZoneSteps(room, room.zones));
        r := ImportZones(job, doc + [RoomStep(room)] + ZoneSteps(room, room.zones), room, mode, mint, n + 1, index,
                         r.value, row);
        if r.Err? {
          RunFailure(job, RoomSteps(rooms[..i + 1]), rest);
          return;
        }
        n := n + 1 + |room.zones|;
      }
      assert rooms[..|rooms|] == rooms;
    }

    /** The group that comes next in the whole document. */
    method TakeNextGroup(ghost job: Job, ghost all: seq<Step>, group: GroupItem, mode: Mode, mint: nat -> Id, n: nat,
                         index: map<Mac, Id>, remap: map<Id, Id>) returns (r: Result<map<Id, Id>, Error>)
      requires n < |all| && all[n] == GroupStep(group) && Stands(job, all[..n], Contents(), remap)
      requires Indexes(index, devices) && mode == job.mode && mint == job.mint
      modifies this`groups
      ensures Proceeds(job, all[..n + 1], Contents(), r)
      ensures r.Err? ==> Proceeds(job, all, Contents(), r)
    {
      r := TakeGroup(job, all[..n], group, mode, mint(n), index, remap);
      ProceedsTo(job, all, n, GroupStep(group), Contents(), r);
    }

    /** The groups: entries `n` and on of the document `all`. */
    method ImportGroups(ghost job: Job, ghost all: seq<Step>, items: seq<GroupItem>, mode: Mode, mint: nat -> Id,
                        n: nat,
                        index: map<Mac, Id>, given: map<Id, Id>) returns (r: Result<map<Id, Id>, Error>)
      requires Continues(all, n, GroupSteps(items)) && Stands(job, all[..n], Contents(), given)
      requires Indexes(index, devices) && mode == job.mode && mint == job.mint
      modifies this`groups
      ensures Proceeds(job, all, Contents(), r)
    {
      hide Run;
      r := Ok(given);
      for k := n to n + |items|
        invariant r.Ok? && Proceeds(job, all[..k], Contents(), r)
      {
        r := TakeNextGroup(job, all, items[k - n], mode, mint, k, index, r.value);
        if r.Err? {
          return;
        }
      }
      ProceedsAll(job, all, n + |items|, Contents(), r);
    }

    /** Imports rooms with their zones, then groups, in document order; `mint` supplies the ids of rows
        that bring none. */
    method ImportHierarchy(roomItems: seq<RoomItem>, groupItems: seq<GroupItem>, mode: Mode, mint: nat -> Id)
        returns (r: Result<map<Id, Id>, Error>)
      requires UniqueMacs(devices)
      modifies this
      ensures
        var job := Job(if mode.Replace? then Wiped(old(Contents())) else old(Contents()), mode, mint);
        match Run(job, RoomSteps(roomItems) + GroupSteps(groupItems))
        case Err(e) => r == Err(e)
        case Ok(h) => r == Ok(h.remap) && Contents() == Standing(job, h)
      ensures committed == old(committed)
    {
      if mode.Replace? {
        WipeHierarchy();
      }
      ghost var job := Job(Contents(), mode, mint);
      var index := IndexByMac();
      StartStanding(job);
      var n;
      r, n := ImportRooms(job, roomItems, mode, mint, index);
      if r.Err? {
        RunFailure(job, RoomSteps(roomItems), GroupSteps(groupItems));
        return;
      }
      Continued(RoomSteps(roomItems), GroupSteps(groupItems));
      r := ImportGroups(job, RoomSteps(roomItems) + GroupSteps(groupItems), groupItems, mode, mint, n, index, r.value);
    }
  }
}
