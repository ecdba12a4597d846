/** What importing the hierarchy section of a backup computes, step by step in document order. */
module Hierarchy {
  import opened Prelude
  import opened Stores
  import opened Envelopes

  datatype Kind = RoomKind | ZoneKind | GroupKind

  /** One entry of the flattened document: a room, a zone inside the room it follows, or a group. */
  datatype Step = RoomStep(room: RoomItem) | ZoneStep(parent: RoomItem, zone: ZoneItem) | GroupStep(group: GroupItem) {
    function Id(): Option<Id> {
      match this
      case RoomStep(r) => r.id
      case ZoneStep(_, z) => z.id
      case GroupStep(g) => g.id
    }

    function Kind(): Kind {
      match this
      case RoomStep(_) => RoomKind
      case ZoneStep(_, _) => ZoneKind
      case GroupStep(_) => GroupKind
    }

    function Name(): Option<string> {
      match this
      case RoomStep(r) => r.name
      case ZoneStep(_, z) => z.name
      case GroupStep(g) => g.name
    }

    /** The devices a room or zone entry places. */
    function Macs(): seq<Mac> {
      match this
      case RoomStep(r) => r.macs
      case ZoneStep(_, z) => z.macs
      case GroupStep(_) => []
    }
  }

  function ZoneSteps(r: RoomItem, zones: seq<ZoneItem>): (s: seq<Step>)
    ensures |s| == |zones| && forall k :: 0 <= k < |zones| ==> s[k] == ZoneStep(r, zones[k])
  {
    seq(|zones|, k requires 0 <= k < |zones| => ZoneStep(r, zones[k]))
  }

  function GroupSteps(groups: seq<GroupItem>): (s: seq<Step>)
    ensures |s| == |groups| && forall k :: 0 <= k < |groups| ==> s[k] == GroupStep(groups[k])
  {
    seq(|groups|, k requires 0 <= k < |groups| => GroupStep(groups[k]))
  }

  function RoomSteps(rooms: seq<RoomItem>): seq<Step>
    decreases |rooms|
  {
    if rooms == [] then []
    else
      var last := rooms[|rooms| - 1];
      RoomSteps(rooms[..|rooms| - 1]) + [RoomStep(last)] + ZoneSteps(last, last.zones)
  }

  /** The hierarchy section in the order the import visits it. */
  function Document(env: Envelope): seq<Step> {
    RoomSteps(env.rooms) + GroupSteps(env.groups)
  }

  /** The placement of a device mentioned under a room or under a zone of that room. */
  datatype Mention = Mention(mac: Mac, room: Id, zone: Option<Id>)

  function Mentions(macs: seq<Mac>, room: Id, zone: Option<Id>): (s: seq<Mention>)
    ensures |s| == |macs| && forall k :: 0 <= k < |macs| ==> s[k] == Mention(macs[k], room, zone)
  {
    seq(|macs|, k requires 0 <= k < |macs| => Mention(macs[k], room, zone))
  }

  ghost function Placed(d: Device, log: seq<Mention>): (r: Device)
    ensures r.mac == d.mac && r.name == d.name
    decreases |log|
  {
    if log == [] then d
    else
      var m := log[|log| - 1];
      if m.mac == d.mac then d.(room := Some(m.room), zone := m.zone) else Placed(d, log[..|log| - 1])
  }

  ghost function PlaceAll(devices: map<Id, Device>, log: seq<Mention>): (r: map<Id, Device>)
    ensures SameHardware(devices, r)
  {
    map d | d in devices :: Placed(devices[d], log)
  }

  /** Everything an import run depends on besides the document: the store it starts from (already
      wiped in replace mode), the mode, and the ids drawn for rows that bring none of their own. */
  datatype Job = Job(base: Store, mode: Mode, mint: nat -> Id)

  /** The rows written so far, the id remap, the placements made, and the current room's row. */
  datatype Hier = Hier(
    rooms: map<Id, Room>,
    zones: map<Id, Zone>,
    groups: map<Id, Group>,
    remap: map<Id, Id>,
    log: seq<Mention>,
    cur: Id)

  const EMPTY := Hier(map[], map[], map[], map[], [], "")

  ghost function Hits<K(!new), A(!new)>(table: map<Id, Keyed<K, A>>, key: K): (hits: set<Id>)
    ensures forall i :: i in hits <==> i in table && table[i].key == key
  {
    set i | i in table && table[i].key == key
  }

  /** The row an item is stored under. A merge takes the row with the item's key, and two such rows
      are an error; anything else is inserted under the item's own id or a fresh one, which fails
      when the id, or a key the schema makes unique, is taken. */
  ghost function RowFor<K(!new), A(!new)>(table: map<Id, Keyed<K, A>>, mode: Mode, id: Option<Id>, key: K, unique: bool,
                                          drawn: Id):
      (r: Result<Id, Error>)
  {
    var hits := Hits(table, key);
    if mode.Merge? && hits != {} then
      var i :| i in hits;
      if hits == {i} then Ok(i) else Err(ManyRows)
    else
      var i := if Truthy(id) then id.value else drawn;
      if i in table || (unique && hits != {}) then Err(Collision) else Ok(i)
  }

  function Note(remap: map<Id, Id>, id: Option<Id>, row: Id): map<Id, Id> {
    if Truthy(id) then remap[id.value := row] else remap
  }

  ghost function Members(devices: map<Id, Device>, macs: seq<Mac>): (r: set<Id>)
    ensures forall d :: d in r <==> exists k :: 0 <= k < |macs| && Local(devices, macs[k]) == Some(d)
  {
    set k | 0 <= k < |macs| && Local(devices, macs[k]).Some? :: Local(devices, macs[k]).value
  }

  /** A known MAC listed twice in one group breaks the membership table's primary key. */
  ghost predicate Repeats(devices: map<Id, Device>, macs: seq<Mac>) {
    exists i, j :: 0 <= i < j < |macs| && macs[i] == macs[j] && Local(devices, macs[i]).Some?
  }

  ghost function ApplyRoom(job: Job, h: Hier, r: RoomItem, n: nat): Result<Hier, Error> {
    if r.name.None? then Err(MissingKey)
    else
      var i :- RowFor(job.base.rooms + h.rooms, job.mode, r.id, r.name.value, true, job.mint(n));
      Ok(h.(rooms := h.rooms[i := Keyed(r.name.value, Look(r.icon, OrElse(r.sortOrder, 0)))],
            remap := Note(h.remap, r.id, i),
            log := h.log + Mentions(r.macs, i, None),
            cur := i))
  }

  ghost function ApplyZone(job: Job, h: Hier, z: ZoneItem, n: nat): Result<Hier, Error> {
    if z.name.None? then Err(MissingKey)
    else
      var key := ZoneKey(z.name.value, h.cur);
      var i :- RowFor(job.base.zones + h.zones, job.mode, z.id, key, false, job.mint(n));
      Ok(h.(zones := h.zones[i := Keyed(key, Look(z.icon, OrElse(z.sortOrder, 0)))],
            remap := Note(h.remap, z.id, i),
            log := h.log + Mentions(z.macs, h.cur, Some(i))))
  }

  ghost function ApplyGroup(job: Job, h: Hier, g: GroupItem, n: nat): Result<Hier, Error> {
    if g.name.None? then Err(MissingKey)
    else
      var i :- RowFor(job.base.groups + h.groups, job.mode, g.id, g.name.value, true, job.mint(n));
      if Repeats(job.base.devices, g.macs) then Err(Collision)
      else
        var roster := Roster(Look(g.icon, OrElse(g.sortOrder, 0)), Members(job.base.devices, g.macs));
        Ok(h.(groups := h.groups[i := Keyed(g.name.value, roster)], remap := Note(h.remap, g.id, i)))
  }

  ghost function Apply(job: Job, h: Hier, s: Step, n: nat): Result<Hier, Error> {
    match s
    case RoomStep(r) => ApplyRoom(job, h, r, n)
    case ZoneStep(_, z) => ApplyZone(job, h, z, n)
    case GroupStep(g) => ApplyGroup(job, h, g, n)
  }

  ghost function Run(job: Job, doc: seq<Step>): Result<Hier, Error>
    decreases |doc|
  {
    if doc == [] then Ok(EMPTY)
    else
      var n := |doc| - 1;
      var h :- Run(job, doc[..n]);
      Apply(job, h, doc[n], n)
  }

  // ---------- Prefixes of a run

  lemma {:induction false} RunPrefix(job: Job, doc: seq<Step>, k: nat)
    requires k <= |doc| && Run(job, doc).Ok?
    ensures Run(job, doc[..k]).Ok?
    decreases |doc|
  {
    if k == |doc| {
      assert doc[..k] == doc;
    } else {
      var n := |doc| - 1;
      assert doc[..n][..k] == doc[..k];
      RunPrefix(job, doc[..n], k);
    }
  }

  lemma RunStep(job: Job, doc: seq<Step>, k: nat)
    requires k < |doc| && Run(job, doc[..k]).Ok?
    ensures Run(job, doc[..k + 1]) == Apply(job, Run(job, doc[..k]).value, doc[k], k)
  {
    assert doc[..k + 1][..k] == doc[..k];
  }

  /** A run fails with the error of its first failing step. */
  lemma {:induction false} RunFailure(job: Job, doc: seq<Step>, rest: seq<Step>)
    requires Run(job, doc).Err?
    ensures Run(job, doc + rest) == Run(job, doc)
    decreases |rest|
  {
    if rest == [] {
      assert doc + rest == doc;
    } else {
      var n := |rest| - 1;
      assert (doc + rest)[..|doc| + n] == doc + rest[..n];
      RunFailure(job, doc, rest[..n]);
    }
  }

  lemma {:induction false} RoomStepsPrefix(rooms: seq<RoomItem>, k: nat) returns (rest: seq<Step>)
    requires k <= |rooms|
    ensures RoomSteps(rooms) == RoomSteps(rooms[..k]) + rest
    decreases |rooms|
  {
    if k == |rooms| {
      assert rooms[..k] == rooms;
      rest := [];
    } else {
      var n := |rooms| - 1;
      assert rooms[..n][..k] == rooms[..k];
      var front := RoomStepsPrefix(rooms[..n], k);
      rest := front + [RoomStep(rooms[n])] + ZoneSteps(rooms[n], rooms[n].zones);
    }
  }

  // ---------- Rows keep their keys

  /** Every row of `a` is still in `b`, with the same key. */
  ghost predicate KeepsKeys<K(!new), A(!new)>(a: map<Id, Keyed<K, A>>, b: map<Id, Keyed<K, A>>) {
    forall i :: i in a ==> i in b && b[i].key == a[i].key
  }

  lemma RowForKeepsKeys<K(!new), A(!new)>(table: map<Id, Keyed<K, A>>, mode: Mode, id: Option<Id>, key: K, unique: bool,
                                drawn: Id, attrs: A)
    requires RowFor(table, mode, id, key, unique, drawn).Ok?
    ensures
      var i := RowFor(table, mode, id, key, unique, drawn).value;
      var after := table[i := Keyed(key, attrs)];
      && KeepsKeys(table, after)
      && (unique && UniqueKeys(table) ==> UniqueKeys(after))
      && (mode.Merge? ==> Hits(after, key) == {i})
      && (mode.Replace? ==> i !in table)
  {
  }

  /** Rows of the rooms, zones and groups tables as they stand after a run. */
  ghost function Rooms(job: Job, h: Hier): map<Id, Room> { job.base.rooms + h.rooms }
  ghost function Zones(job: Job, h: Hier): map<Id, Zone> { job.base.zones + h.zones }
  ghost function Groups(job: Job, h: Hier): map<Id, Group> { job.base.groups + h.groups }

  ghost predicate Extends(job: Job, a: Hier, b: Hier) {
    && KeepsKeys(Rooms(job, a), Rooms(job, b))
    && KeepsKeys(Zones(job, a), Zones(job, b))
    && KeepsKeys(Groups(job, a), Groups(job, b))
    && a.log <= b.log
  }

  lemma OverlayUpdate<V>(a: map<Id, V>, b: map<Id, V>, i: Id, v: V)
    ensures a + b[i := v] == (a + b)[i := v]
  {
  }

  lemma ApplyExtends(job: Job, h: Hier, s: Step, n: nat)
    requires Apply(job, h, s, n).Ok?
    ensures Extends(job, h, Apply(job, h, s, n).value)
  {
    var after := Apply(job, h, s, n).value;
    match s
    case RoomStep(r) =>
      var i := RowFor(Rooms(job, h), job.mode, r.id, r.name.value, true, job.mint(n)).value;
      OverlayUpdate(job.base.rooms, h.rooms, i, after.rooms[i]);
    case ZoneStep(_, z) =>
      var i := RowFor(Zones(job, h), job.mode, z.id, ZoneKey(z.name.value, h.cur), false, job.mint(n)).value;
      OverlayUpdate(job.base.zones, h.zones, i, after.zones[i]);
    case GroupStep(g) =>
      var i := RowFor(Groups(job, h), job.mode, g.id, g.name.value, true, job.mint(n)).value;
      OverlayUpdate(job.base.groups, h.groups, i, after.groups[i]);
  }

  /** No step of a run deletes a row, renames one, or forgets a placement. */
  lemma {:induction false} RunExtends(job: Job, doc: seq<Step>, k: nat)
    requires k <= |doc| && Run(job, doc).Ok?
    ensures Run(job, doc[..k]).Ok? && Extends(job, Run(job, doc[..k]).value, Run(job, doc).value)
    decreases |doc|
  {
    RunPrefix(job, doc, k);
    if k == |doc| {
      assert doc[..k] == doc;
    } else {
      var n := |doc| - 1;
      assert doc[..n][..k] == doc[..k];
      RunExtends(job, doc[..n], k);
      ApplyExtends(job, Run(job, doc[..n]).value, doc[n], n);
    }
  }

  /** No row that was there before the import is deleted or renamed. */
  lemma BaseRowsKept(job: Job, doc: seq<Step>)
    requires Run(job, doc).Ok?
    ensures KeepsKeys(job.base.rooms, Rooms(job, Run(job, doc).value))
    ensures KeepsKeys(job.base.zones, Zones(job, Run(job, doc).value))
    ensures KeepsKeys(job.base.groups, Groups(job, Run(job, doc).value))
  {
    RunExtends(job, doc, 0);
    assert doc[..0] == [];
    assert Rooms(job, EMPTY) == job.base.rooms && Zones(job, EMPTY) == job.base.zones
        && Groups(job, EMPTY) == job.base.groups;
  }
}
