/** Importing the hierarchy of an export rebuilds the exported rows under their own ids, both on an
    emptied hierarchy and on the hierarchy that was exported. */
module Replay {
  import opened Prelude
  import opened Stores
  import opened Envelopes
  import opened Hierarchy
  import opened HierarchyFacts
  import opened Exports

  /** Devices of one installation that are, by MAC, among the devices `ds` of another. */
  ghost function Carry(st: Store, devices: map<Id, Device>, ds: set<Id>): (r: set<Id>)
    ensures forall e :: e in r <==> e in devices && devices[e].mac in MacsOf(st, ds)
  {
    set e | e in devices && devices[e].mac in MacsOf(st, ds)
  }

  /** The exported group as another installation can hold it. */
  ghost function CarriedGroup(st: Store, devices: map<Id, Device>, g: Group): Group {
    Keyed(g.key, Roster(g.attrs.look, Carry(st, devices, g.attrs.members)))
  }

  /** The job imports an export of `st`, on top of nothing or on top of `st` itself. */
  ghost predicate Ready(st: Store, job: Job) {
    && Valid(st) && UniqueMacs(job.base.devices)
    && match job.mode
       case Replace => job.base.rooms == map[] && job.base.zones == map[] && job.base.groups == map[]
       case Merge =>
         job.base.rooms == st.rooms && job.base.zones == st.zones && job.base.groups == st.groups && UniqueZones(st)
  }

  /** The ids that entries of one kind carry. */
  function IdsOf(doc: seq<Step>, kind: Kind): set<Id>
    decreases |doc|
  {
    if doc == [] then {}
    else
      var front, last := IdsOf(doc[..|doc| - 1], kind), doc[|doc| - 1];
      if last.Kind() == kind && last.Id().Some? then front + {last.Id().value} else front
  }

  lemma {:induction false} IdsOfMeans(doc: seq<Step>, kind: Kind, x: Id)
    ensures x in IdsOf(doc, kind) <==> Carries(doc, kind, x)
    decreases |doc|
  {
    if doc != [] {
      var n := |doc| - 1;
      IdsOfMeans(doc[..n], kind, x);
      if x in IdsOf(doc[..n], kind) {
        var k :| 0 <= k < n && doc[..n][k].Kind() == kind && doc[..n][k].Id() == Some(x);
        assert doc[k].Kind() == kind && doc[k].Id() == Some(x);
      }
      if k :| 0 <= k < |doc| && doc[k].Kind() == kind && doc[k].Id() == Some(x) {
        assert k == n || (doc[..n][k].Kind() == kind && doc[..n][k].Id() == Some(x));
      }
    }
  }

  /** The rows written so far are rows of the exported store. */
  ghost predicate Within(st: Store, devices: map<Id, Device>, h: Hier) {
    && (forall i :: i in h.rooms ==> i in st.rooms && h.rooms[i] == st.rooms[i])
    && (forall i :: i in h.zones ==> i in st.zones && h.zones[i] == st.zones[i])
    && (forall i :: i in h.groups ==> i in st.groups && h.groups[i] == CarriedGroup(st, devices, st.groups[i]))
  }

  /** The rows written are exactly the exported rows of the entries so far. */
  ghost predicate Rebuilt(st: Store, devices: map<Id, Device>, doc: seq<Step>, h: Hier) {
    && h.rooms.Keys == IdsOf(doc, RoomKind)
    && h.zones.Keys == IdsOf(doc, ZoneKind)
    && h.groups.Keys == IdsOf(doc, GroupKind)
    && Within(st, devices, h)
  }

  /** No exported row changes its id, and the current room is the one being visited. */
  ghost predicate KeepsIds(doc: seq<Step>, h: Hier) {
    && (forall x :: x in h.remap ==> h.remap[x] == x)
    && h.remap.Keys == IdsOf(doc, RoomKind) + IdsOf(doc, ZoneKind) + IdsOf(doc, GroupKind)
    && (doc != [] ==> match doc[|doc| - 1]
                      case RoomStep(r) => r.id == Some(h.cur)
                      case ZoneStep(p, _) => p.id == Some(h.cur)
                      case GroupStep(_) => true)
  }

  /** An export's item finds its own row, or a free place for it. */
  lemma OwnRow<K(!new), A(!new)>(source: map<Id, Keyed<K, A>>, table: map<Id, Keyed<K, A>>, mode: Mode, id: Id,
                                 unique: bool, drawn: Id)
    requires id in source && id != ""
    requires forall i :: i in table ==> i in source && table[i].key == source[i].key
    requires mode.Merge? || unique ==> forall j :: j in source && source[j].key == source[id].key ==> j == id
    requires if mode.Merge? then id in table else id !in table
    ensures RowFor(table, mode, Some(id), source[id].key, unique, drawn) == Ok(id)
  {
    if mode.Merge? {
      assert Hits(table, source[id].key) == {id};
    }
  }

  lemma MembersAreCarried(st: Store, devices: map<Id, Device>, macs: seq<Mac>, ds: set<Id>)
    requires UniqueMacs(devices) && Lists(macs, MacsOf(st, ds))
    ensures Members(devices, macs) == Carry(st, devices, ds) && !Repeats(devices, macs)
  {
    forall e | e in Carry(st, devices, ds)
      ensures e in Members(devices, macs)
    {
      LocalIs(devices, e);
      assert devices[e].mac in macs;
    }
  }

  /** The last entry's row has not been written before. */
  lemma LastIsNew(st: Store, doc: seq<Step>)
    requires ExportsDocument(st, doc) && doc != []
    ensures
      var n := |doc| - 1;
      doc[n].Id().Some? && doc[n].Id().value !in IdsOf(doc[..n], doc[n].Kind())
  {
    var n := |doc| - 1;
    assert ExportsStep(st, doc[n]);
    IdsOfMeans(doc[..n], doc[n].Kind(), doc[n].Id().value);
    assert forall k :: 0 <= k < n ==> doc[..n][k] == doc[k] && !SameRow(doc[k], doc[n]);
  }

  lemma ReplayRoom(st: Store, job: Job, h: Hier, r: RoomItem, n: nat)
    requires Ready(st, job) && Within(st, job.base.devices, h)
    requires ExportsRoom(st, r) && r.id.value !in h.rooms
    ensures
      var i := r.id.value;
      ApplyRoom(job, h, r, n) ==
        Ok(h.(rooms := h.rooms[i := st.rooms[i]], remap := h.remap[i := i], log := h.log + Mentions(r.macs, i, None),
              cur := i))
  {
    OwnRow(st.rooms, job.base.rooms + h.rooms, job.mode, r.id.value, true, job.mint(n));
  }

  lemma ReplayZone(st: Store, job: Job, h: Hier, z: ZoneItem, n: nat)
    requires Ready(st, job) && Within(st, job.base.devices, h)
    requires h.cur in st.rooms && ExportsZone(st, h.cur, z) && z.id.value !in h.zones
    ensures
      var i := z.id.value;
      ApplyZone(job, h, z, n) ==
        Ok(h.(zones := h.zones[i := st.zones[i]], remap := h.remap[i := i],
              log := h.log + Mentions(z.macs, h.cur, Some(i))))
  {
    OwnRow(st.zones, job.base.zones + h.zones, job.mode, z.id.value, false, job.mint(n));
  }

  lemma ReplayGroup(st: Store, job: Job, h: Hier, g: GroupItem, n: nat)
    requires Ready(st, job) && Within(st, job.base.devices, h)
    requires ExportsGroup(st, g) && g.id.value !in h.groups
    ensures
      var i := g.id.value;
      ApplyGroup(job, h, g, n) ==
        Ok(h.(groups := h.groups[i := CarriedGroup(st, job.base.devices, st.groups[i])], remap := h.remap[i := i]))
  {
    OwnRow(st.groups, job.base.groups + h.groups, job.mode, g.id.value, true, job.mint(n));
    MembersAreCarried(st, job.base.devices, g.macs, st.groups[g.id.value].attrs.members);
  }

  lemma RebuiltRoom(st: Store, devices: map<Id, Device>, doc: seq<Step>, h: Hier, i: Id, next: Hier)
    requires doc != [] && doc[|doc| - 1].Kind() == RoomKind && doc[|doc| - 1].Id() == Some(i) && i in st.rooms
    requires Rebuilt(st, devices, doc[..|doc| - 1], h) && KeepsIds(doc[..|doc| - 1], h)
    requires next == h.(rooms := h.rooms[i := st.rooms[i]], remap := h.remap[i := i], log := next.log, cur := next.cur)
    requires match doc[|doc| - 1]
             case RoomStep(_) => next.cur == i
             case ZoneStep(p, _) => p.id == Some(next.cur)
             case GroupStep(_) => true
    ensures Rebuilt(st, devices, doc, next) && KeepsIds(doc, next)
  {
  }

  lemma RebuiltZone(st: Store, devices: map<Id, Device>, doc: seq<Step>, h: Hier, i: Id, next: Hier)
    requires doc != [] && doc[|doc| - 1].Kind() == ZoneKind && doc[|doc| - 1].Id() == Some(i) && i in st.zones
    requires Rebuilt(st, devices, doc[..|doc| - 1], h) && KeepsIds(doc[..|doc| - 1], h)
    requires next == h.(zones := h.zones[i := st.zones[i]], remap := h.remap[i := i], log := next.log, cur := next.cur)
    requires match doc[|doc| - 1]
             case RoomStep(_) => next.cur == i
             case ZoneStep(p, _) => p.id == Some(next.cur)
             case GroupStep(_) => true
    ensures Rebuilt(st, devices, doc, next) && KeepsIds(doc, next)
  {
  }

  lemma RebuiltGroup(st: Store, devices: map<Id, Device>, doc: seq<Step>, h: Hier, i: Id, next: Hier)
    requires doc != [] && doc[|doc| - 1].Kind() == GroupKind && doc[|doc| - 1].Id() == Some(i) && i in st.groups
    requires Rebuilt(st, devices, doc[..|doc| - 1], h) && KeepsIds(doc[..|doc| - 1], h)
    requires next == h.(groups := h.groups[i := CarriedGroup(st, devices, st.groups[i])], remap := h.remap[i := i],
                        log := next.log, cur := next.cur)
    requires match doc[|doc| - 1]
             case RoomStep(_) => next.cur == i
             case ZoneStep(p, _) => p.id == Some(next.cur)
             case GroupStep(_) => true
    ensures Rebuilt(st, devices, doc, next) && KeepsIds(doc, next)
  {
  }

  lemma ReplayStep(st: Store, job: Job, doc: seq<Step>, h: Hier)
    requires Ready(st, job) && ExportsDocument(st, doc) && doc != []
    requires Rebuilt(st, job.base.devices, doc[..|doc| - 1], h) && KeepsIds(doc[..|doc| - 1], h)
    ensures
      var next := Apply(job, h, doc[|doc| - 1], |doc| - 1);
      next.Ok? && Rebuilt(st, job.base.devices, doc, next.value) && KeepsIds(doc, next.value)
  {
    hide Ready, Valid, IdsOf, ApplyRoom, ApplyZone, ApplyGroup;
    var n := |doc| - 1;
    LastIsNew(st, doc);
    assert ExportsStep(st, doc[n]);
    match doc[n]
    case RoomStep(r) =>
      ReplayRoom(st, job, h, r, n);
      RebuiltRoom(st, job.base.devices, doc, h, r.id.value, ApplyRoom(job, h, r, n).value);
    case ZoneStep(p, z) =>
      assert doc[..n][n - 1] == doc[n - 1] && InRoom(doc[n - 1], p);
      ReplayZone(st, job, h, z, n);
      RebuiltZone(st, job.base.devices, doc, h, z.id.value, ApplyZone(job, h, z, n).value);
    case GroupStep(g) =>
      ReplayGroup(st, job, h, g, n);
      RebuiltGroup(st, job.base.devices, doc, h, g.id.value, ApplyGroup(job, h, g, n).value);
  }

  /** Importing an exported hierarchy never fails and rebuilds it. */
  lemma {:induction false} ReplayRun(st: Store, job: Job, doc: seq<Step>)
    requires Ready(st, job) && ExportsDocument(st, doc)
    ensures Run(job, doc).Ok?
    ensures Rebuilt(st, job.base.devices, doc, Run(job, doc).value) && KeepsIds(doc, Run(job, doc).value)
    decreases |doc|
  {
    if doc != [] {
      var n := |doc| - 1;
      assert forall k :: 0 <= k < n ==> doc[..n][k] == doc[k];
      ReplayRun(st, job, doc[..n]);
      ReplayStep(st, job, doc, Run(job, doc[..n]).value);
    }
  }

  // ---------- Where the devices end up

  /** The mention puts a device of the exported store where the export shows it. */
  ghost predicate Shows(st: Store, m: Mention, s: Id) {
    && s in st.devices && st.devices[s].mac == m.mac
    && ShownRoom(st, st.devices[s]) == Some(m.room) && ShownZone(st, st.devices[s]) == m.zone
  }

  ghost predicate Shown(st: Store, m: Mention) {
    exists s :: Shows(st, m, s)
  }

  ghost predicate AllShown(st: Store, log: seq<Mention>) {
    forall k :: 0 <= k < |log| ==> Shown(st, log[k])
  }

  lemma RoomMentionsShown(st: Store, r: RoomItem)
    requires ExportsRoom(st, r)
    ensures AllShown(st, Mentions(r.macs, r.id.value, None))
  {
    var log := Mentions(r.macs, r.id.value, None);
    forall k | 0 <= k < |log|
      ensures Shown(st, log[k])
    {
      assert r.macs[k] in MacsOf(st, UnzonedIn(st, r.id.value));
      var s :| s in UnzonedIn(st, r.id.value) && s in st.devices && st.devices[s].mac == r.macs[k];
      assert Shows(st, log[k], s);
    }
  }

  lemma ZoneMentionsShown(st: Store, room: Id, z: ZoneItem)
    requires room in st.rooms && ExportsZone(st, room, z)
    ensures AllShown(st, Mentions(z.macs, room, z.id))
  {
    var log := Mentions(z.macs, room, z.id);
    forall k | 0 <= k < |log|
      ensures Shown(st, log[k])
    {
      assert z.macs[k] in MacsOf(st, InZone(st, z.id.value));
      var s :| s in InZone(st, z.id.value) && s in st.devices && st.devices[s].mac == z.macs[k];
      assert Shows(st, log[k], s);
    }
  }

  lemma ReplayStepLog(st: Store, job: Job, doc: seq<Step>, h: Hier)
    requires Ready(st, job) && ExportsDocument(st, doc) && doc != []
    requires Rebuilt(st, job.base.devices, doc[..|doc| - 1], h) && KeepsIds(doc[..|doc| - 1], h)
    requires AllShown(st, h.log)
    ensures
      var next := Apply(job, h, doc[|doc| - 1], |doc| - 1);
      next.Ok? && AllShown(st, next.value.log)
  {
    hide Ready, Valid, IdsOf, Shown, ApplyRoom, ApplyZone, ApplyGroup;
    var n := |doc| - 1;
    LastIsNew(st, doc);
    assert ExportsStep(st, doc[n]);
    match doc[n]
    case RoomStep(r) =>
      ReplayRoom(st, job, h, r, n);
      RoomMentionsShown(st, r);
    case ZoneStep(p, z) =>
      assert doc[..n][n - 1] == doc[n - 1] && InRoom(doc[n - 1], p);
      ReplayZone(st, job, h, z, n);
      ZoneMentionsShown(st, h.cur, z);
    case GroupStep(g) =>
      ReplayGroup(st, job, h, g, n);
  }

  lemma {:induction false} ReplayLog(st: Store, job: Job, doc: seq<Step>)
    requires Ready(st, job) && ExportsDocument(st, doc)
    ensures Run(job, doc).Ok? && AllShown(st, Run(job, doc).value.log)
    decreases |doc|
  {
    if doc != [] {
      var n := |doc| - 1;
      assert forall k :: 0 <= k < n ==> doc[..n][k] == doc[k];
      ReplayLog(st, job, doc[..n]);
      ReplayRun(st, job, doc[..n]);
      ReplayStepLog(st, job, doc, Run(job, doc[..n]).value);
    }
  }

  /** A device that the export shows somewhere is listed by some entry. */
  lemma ShownIsListed(st: Store, doc: seq<Step>, s: Id) returns (k: nat)
    requires ExportsDocument(st, doc) && CoversStore(st, doc)
    requires s in st.devices && ShownRoom(st, st.devices[s]).Some?
    ensures k < |doc| && st.devices[s].mac in doc[k].Macs()
  {
    var d := st.devices[s];
    if d.zone.Some? {
      assert Carries(doc, ZoneKind, d.zone.value);
      k :| 0 <= k < |doc| && doc[k].Kind() == ZoneKind && doc[k].Id() == Some(d.zone.value);
      assert ExportsStep(st, doc[k]) && s in InZone(st, d.zone.value);
    } else {
      assert Carries(doc, RoomKind, d.room.value);
      k :| 0 <= k < |doc| && doc[k].Kind() == RoomKind && doc[k].Id() == Some(d.room.value);
      assert ExportsStep(st, doc[k]) && s in UnzonedIn(st, d.room.value);
    }
  }

  /** The placement a device of another installation gets from an export. */
  ghost function Resettled(st: Store, d: Device): Device {
    var s := Local(st.devices, d.mac);
    if s.Some? && ShownRoom(st, st.devices[s.value]).Some? then
      d.(room := ShownRoom(st, st.devices[s.value]), zone := ShownZone(st, st.devices[s.value]))
    else d
  }

  lemma ReplayPlaces(st: Store, job: Job, doc: seq<Step>, d: Device)
    requires Ready(st, job) && ExportsDocument(st, doc) && CoversStore(st, doc)
    ensures Run(job, doc).Ok? && Placed(d, Run(job, doc).value.log) == Resettled(st, d)
  {
    ReplayLog(st, job, doc);
    var log := Run(job, doc).value.log;
    PlacedFromLog(d, log);
    var s := Local(st.devices, d.mac);
    if k :| 0 <= k < |log| && log[k].mac == d.mac &&
            Placed(d, log) == d.(room := Some(log[k].room), zone := log[k].zone) {
      assert Shown(st, log[k]);
      var t :| Shows(st, log[k], t);
      assert s == Some(t);
    } else if s.Some? && ShownRoom(st, st.devices[s.value]).Some? {
      var k := ShownIsListed(st, doc, s.value);
      var j := MentionedIsLogged(job, doc, k, d.mac);
    }
  }
}
