/** The rows of the relational store, and the rules the schema enforces on them. */
module Stores {
  import opened Prelude

  type Id = string
  type Mac = string
  type Json = string  // the text of a stored JSON payload

  datatype Device = Device(mac: Mac, name: string, room: Option<Id>, zone: Option<Id>)

  /** Icon and sort order, common to rooms, zones and groups. */
  datatype Look = Look(icon: Option<string>, sortOrder: int)

  /** A row that a merge import finds by its key rather than by its id. */
  datatype Keyed<K, A> = Keyed(key: K, attrs: A)

  /** A zone is looked up by its name within its room. */
  datatype ZoneKey = ZoneKey(name: string, room: Id)

  /** A group owns its membership rows; their composite primary key makes them a set of device ids. */
  datatype Roster = Roster(look: Look, members: set<Id>)

  type Room = Keyed<string, Look>
  type Zone = Keyed<ZoneKey, Look>
  type Group = Keyed<string, Roster>

  datatype TriggerType = Cron | Sunrise | Sunset | Webhook
  datatype TargetType = OneDevice | OneRoom | OneZone | OneGroup | All | AllExcept

  datatype Trigger = Trigger(kind: TriggerType, cron: Option<string>, offset: Option<int>)
  datatype Target = Target(kind: TargetType, id: Option<Id>, excludes: Option<seq<Id>>, state: Json)

  datatype Schedule = Schedule(name: string, enabled: bool, priority: int, triggers: seq<Trigger>, targets: seq<Target>)
  datatype QuickAction = QuickAction(name: string, icon: Option<string>, sortOrder: int, targets: seq<Target>)
  datatype Scene = Scene(name: string, red: Option<int>, green: Option<int>, blue: Option<int>,
                         temp: Option<int>, brightness: int)

  /** A row with the part a backup carries and the part it does not. */
  datatype Owned<V> = Owned(view: V, createdBy: Id)

  datatype Store = Store(
    devices: map<Id, Device>,
    rooms: map<Id, Room>,
    zones: map<Id, Zone>,
    groups: map<Id, Group>,
    schedules: map<Id, Owned<Schedule>>,
    actions: map<Id, Owned<QuickAction>>,
    scenes: map<Id, Owned<Scene>>)

  ghost predicate UniqueKeys<K(!new), A(!new)>(table: map<Id, Keyed<K, A>>) {
    forall i, j :: i in table && j in table && table[i].key == table[j].key ==> i == j
  }

  ghost predicate UniqueMacs(devices: map<Id, Device>) {
    forall i, j :: i in devices && j in devices && devices[i].mac == devices[j].mac ==> i == j
  }

  /** What the database guarantees at every commit: primary keys are proper ids, and MACs,
      room names and group names are unique. Zone names are not. */
  ghost predicate Valid(st: Store) {
    && UniqueMacs(st.devices)
    && UniqueKeys(st.rooms)
    && UniqueKeys(st.groups)
    && "" !in st.devices && "" !in st.rooms && "" !in st.zones && "" !in st.groups
    && "" !in st.schedules && "" !in st.actions && "" !in st.scenes
  }

  /** Zone names are unique within each existing room. */
  ghost predicate UniqueZones(st: Store) {
    forall i, j ::
      i in st.zones && j in st.zones && st.zones[i].key == st.zones[j].key && st.zones[i].key.room in st.rooms ==>
        i == j
  }

  /** Placement references exist, and a zoned device sits in its zone's room. */
  ghost predicate Coherent(st: Store) {
    forall d :: d in st.devices ==> CoherentDevice(st, st.devices[d])
  }

  ghost predicate CoherentDevice(st: Store, d: Device) {
    && (d.room.Some? ==> d.room.value in st.rooms)
    && (d.zone.Some? ==> d.zone.value in st.zones && d.room == Some(st.zones[d.zone.value].key.room))
  }

  /** The id of the device with this MAC, if there is one. */
  ghost function Local(devices: map<Id, Device>, mac: Mac): (r: Option<Id>)
    ensures r.Some? ==> r.value in devices && devices[r.value].mac == mac
    ensures r.None? ==> forall d :: d in devices ==> devices[d].mac != mac
  {
    if exists d :: d in devices && devices[d].mac == mac then
      var d :| d in devices && devices[d].mac == mac;
      Some(d)
    else
      None
  }

  /** The two installations hold the same physical devices under the same ids. */
  ghost predicate SameHardware(a: map<Id, Device>, b: map<Id, Device>) {
    a.Keys == b.Keys && forall d :: d in a ==> a[d].mac == b[d].mac
  }

  lemma LocalIs(devices: map<Id, Device>, d: Id)
    requires UniqueMacs(devices) && d in devices
    ensures Local(devices, devices[d].mac) == Some(d)
  {
  }

  lemma LocalOfSameHardware(a: map<Id, Device>, b: map<Id, Device>, mac: Mac)
    requires UniqueMacs(a) && SameHardware(a, b)
    ensures Local(a, mac) == Local(b, mac)
  {
  }
}
