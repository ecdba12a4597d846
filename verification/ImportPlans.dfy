/** When the hierarchy of an arbitrary envelope can be imported, and into which rows: stated over names and
    ids alone, for entries with and without an id. */
module ImportPlans {
  import opened Prelude
  import opened Stores
  import opened Envelopes
  import opened Hierarchy
  import opened HierarchyFacts

  /** What a row is found by: a room's or a group's name, or a zone's name within its room. */
  datatype Name = Name(kind: Kind, text: string, room: Id)

  // ---------- The plan: a row for every entry

  /** The row of the last room entry before the `k`-th. */
  function RoomAt(doc: seq<Step>, rows: seq<Id>, k: nat): Id
    requires k <= |doc| == |rows|
  {
    if k == 0 then "" else if doc[k - 1].RoomStep? then rows[k - 1] else RoomAt(doc, rows, k - 1)
  }

  function NameAt(doc: seq<Step>, rows: seq<Id>, k: nat): Name
    requires k < |doc| == |rows|
  {
    Name(doc[k].Kind(), OrElse(doc[k].Name(), ""), if doc[k].ZoneStep? then RoomAt(doc, rows, k) else "")
  }

  /** The id that an entry's own row gets: the one it brings, or else the one drawn for it. */
  function OwnId(job: Job, doc: seq<Step>, k: nat): Id
    requires k < |doc|
  {
    if doc[k].Id().Some? && doc[k].Id().value != "" then doc[k].Id().value else job.mint(k)
  }

  ghost predicate HasName(rooms: map<Id, Room>, zones: map<Id, Zone>, groups: map<Id, Group>, i: Id, n: Name) {
    match n.kind
    case RoomKind => i in rooms && rooms[i].key == n.text && n.room == ""
    case ZoneKind => i in zones && zones[i].key.name == n.text && zones[i].key.room == n.room
    case GroupKind => i in groups && groups[i].key == n.text && n.room == ""
  }

  ghost predicate HasId(rooms: map<Id, Room>, zones: map<Id, Zone>, groups: map<Id, Group>, kind: Kind, i: Id) {
    match kind
    case RoomKind => i in rooms
    case ZoneKind => i in zones
    case GroupKind => i in groups
  }

  /** When the `k`-th entry comes, the row `i` is there under this name: it was there before the import, or an
      earlier entry is stored in it. */
  ghost predicate Named(job: Job, doc: seq<Step>, rows: seq<Id>, k: nat, i: Id, n: Name)
    requires k <= |doc| == |rows|
  {
    || HasName(job.base.rooms, job.base.zones, job.base.groups, i, n)
    || exists j: nat :: j < k && rows[j] == i && NameAt(doc, rows, j) == n
  }

  /** When the `k`-th entry comes, the id `i` is taken in the table of this kind. */
  ghost predicate Taken(job: Job, doc: seq<Step>, rows: seq<Id>, k: nat, kind: Kind, i: Id)
    requires k <= |doc| == |rows|
  {
    || HasId(job.base.rooms, job.base.zones, job.base.groups, kind, i)
    || exists j: nat :: j < k && rows[j] == i && doc[j].Kind() == kind
  }

  /** A MAC known here is listed twice. */
  ghost predicate ListedTwice(devices: map<Id, Device>, macs: seq<Mac>) {
    exists i, j, d :: 0 <= i < j < |macs| && macs[i] == macs[j] && d in devices && devices[d].mac == macs[i]
  }

  /** The `k`-th entry is accepted, and stored in the row planned for it. In a merge that is the one row of its
      name; if there is none, or in a replace, it is a row under the entry's own id, which must be free, as
      must the name of a room or group. */
  ghost predicate Stored(job: Job, doc: seq<Step>, rows: seq<Id>, k: nat)
    requires k < |doc| == |rows|
  {
    var n := NameAt(doc, rows, k);
    && doc[k].Name().Some?
    && (if job.mode.Merge? && exists i :: Named(job, doc, rows, k, i, n)
        then forall i :: Named(job, doc, rows, k, i, n) <==> i == rows[k]
        else
          && rows[k] == OwnId(job, doc, k) && !Taken(job, doc, rows, k, doc[k].Kind(), rows[k])
          && (doc[k].ZoneStep? || forall i :: !Named(job, doc, rows, k, i, n)))
    && (doc[k].GroupStep? ==> !ListedTwice(job.base.devices, doc[k].group.macs))
  }

  ghost predicate IsPlan(job: Job, doc: seq<Step>, rows: seq<Id>) {
    |rows| == |doc| && forall k :: 0 <= k < |doc| ==> Stored(job, doc, rows, k)
  }

  // ---------- The run follows the plan

  /** The tables hold the names and ids that the plan says. */
  ghost predicate Agrees(job: Job, doc: seq<Step>, rows: seq<Id>, k: nat, h: Hier)
    requires k <= |doc| == |rows|
  {
    && (forall i, n :: HasName(Rooms(job, h), Zones(job, h), Groups(job, h), i, n) <==> Named(job, doc, rows, k, i, n))
    && (forall kind, i ::
          HasId(Rooms(job, h), Zones(job, h), Groups(job, h), kind, i) <==> Taken(job, doc, rows, k, kind, i))
    && h.cur == RoomAt(doc, rows, k)
  }

  /** The row choice, by the rows that have the key. */
  lemma RowForIs<K(!new), A(!new)>(table: map<Id, Keyed<K, A>>, mode: Mode, id: Option<Id>, key: K, unique: bool,
                                   drawn: Id, row: Id)
    ensures RowFor(table, mode, id, key, unique, drawn) == Ok(row) <==>
              if mode.Merge? && exists i :: i in Hits(table, key)
              then forall i :: i in Hits(table, key) <==> i == row
              else
                && row == (if id.Some? && id.value != "" then id.value else drawn) && row !in table
                && (unique ==> forall i :: i !in Hits(table, key))
  {
    var hits := Hits(table, key);
    if hits != {} {
      var i :| i in hits;
      assert (forall j :: j in hits <==> j == row) <==> hits == {row};
    }
  }

  lemma RepeatsIsListedTwice(devices: map<Id, Device>, macs: seq<Mac>)
    ensures Repeats(devices, macs) <==> ListedTwice(devices, macs)
  {
  }

  lemma RoomStored(job: Job, doc: seq<Step>, rows: seq<Id>, k: nat, h: Hier)
    requires k < |doc| == |rows| && Agrees(job, doc, rows, k, h) && doc[k].RoomStep?
    ensures Apply(job, h, doc[k], k).Ok? && StepRow(job, h, doc[k], k) == rows[k] <==> Stored(job, doc, rows, k)
  {
    hide Named, Taken, RowFor, RoomAt;
    var r, n := doc[k].room, NameAt(doc, rows, k);
    if r.name.Some? {
      RowForIs(Rooms(job, h), job.mode, r.id, r.name.value, true, job.mint(k), rows[k]);
      forall i ensures i in Hits(Rooms(job, h), r.name.value) <==> Named(job, doc, rows, k, i, n) {
        assert HasName(Rooms(job, h), Zones(job, h), Groups(job, h), i, n) <==> Named(job, doc, rows, k, i, n);
      }
      assert HasId(Rooms(job, h), Zones(job, h), Groups(job, h), RoomKind, rows[k]) <==>
               Taken(job, doc, rows, k, RoomKind, rows[k]);
    }
  }

  lemma ZoneStored(job: Job, doc: seq<Step>, rows: seq<Id>, k: nat, h: Hier)
    requires k < |doc| == |rows| && Agrees(job, doc, rows, k, h) && doc[k].ZoneStep?
    ensures Apply(job, h, doc[k], k).Ok? && StepRow(job, h, doc[k], k) == rows[k] <==> Stored(job, doc, rows, k)
  {
    hide Named, Taken, RowFor, RoomAt;
    var z, n := doc[k].zone, NameAt(doc, rows, k);
    if z.name.Some? {
      var key := ZoneKey(z.name.value, h.cur);
      RowForIs(Zones(job, h), job.mode, z.id, key, false, job.mint(k), rows[k]);
      forall i ensures i in Hits(Zones(job, h), key) <==> Named(job, doc, rows, k, i, n) {
        assert HasName(Rooms(job, h), Zones(job, h), Groups(job, h), i, n) <==> Named(job, doc, rows, k, i, n);
      }
      assert HasId(Rooms(job, h), Zones(job, h), Groups(job, h), ZoneKind, rows[k]) <==>
               Taken(job, doc, rows, k, ZoneKind, rows[k]);
    }
  }

  lemma GroupStored(job: Job, doc: seq<Step>, rows: seq<Id>, k: nat, h: Hier)
    requires k < |doc| == |rows| && Agrees(job, doc, rows, k, h) && doc[k].GroupStep?
    ensures Apply(job, h, doc[k], k).Ok? && StepRow(job, h, doc[k], k) == rows[k] <==> Stored(job, doc, rows, k)
  {
    hide Named, Taken, RowFor, RoomAt, ListedTwice, Repeats, Members;
    var g, n := doc[k].group, NameAt(doc, rows, k);
    RepeatsIsListedTwice(job.base.devices, g.macs);
    if g.name.Some? {
      RowForIs(Groups(job, h), job.mode, g.id, g.name.value, true, job.mint(k), rows[k]);
      forall i ensures i in Hits(Groups(job, h), g.name.value) <==> Named(job, doc, rows, k, i, n) {
        assert HasName(Rooms(job, h), Zones(job, h), Groups(job, h), i, n) <==> Named(job, doc, rows, k, i, n);
      }
      assert HasId(Rooms(job, h), Zones(job, h), Groups(job, h), GroupKind, rows[k]) <==>
               Taken(job, doc, rows, k, GroupKind, rows[k]);
    }
  }

  /** The run accepts the next entry into the planned row exactly when the plan does. */
  lemma NextStored(job: Job, doc: seq<Step>, rows: seq<Id>, k: nat, h: Hier)
    requires k < |doc| == |rows| && Agrees(job, doc, rows, k, h)
    ensures Apply(job, h, doc[k], k).Ok? && StepRow(job, h, doc[k], k) == rows[k] <==> Stored(job, doc, rows, k)
  {
    hide Apply, StepRow, Stored, Agrees;
    match doc[k]
    case RoomStep(_) => RoomStored(job, doc, rows, k, h);
    case ZoneStep(_, _) => ZoneStored(job, doc, rows, k, h);
    case GroupStep(_) => GroupStored(job, doc, rows, k, h);
  }

  /** What writing a row under its own key, or under a free id, adds to a table. */
  lemma KeysAfter<K(!new), A(!new)>(base: map<Id, Keyed<K, A>>, rows: map<Id, Keyed<K, A>>, row: Id, v: Keyed<K, A>)
    requires row in base + rows ==> (base + rows)[row].key == v.key
    ensures
      var now, after := base + rows, base + rows[row := v];
      && (forall i :: i in after <==> i in now || i == row)
      && (forall i :: i in after ==> after[i].key == if i == row then v.key else now[i].key)
  {
  }

  lemma ChosenRow<K(!new), A(!new)>(table: map<Id, Keyed<K, A>>, mode: Mode, id: Option<Id>, key: K, unique: bool,
                                    drawn: Id)
    requires RowFor(table, mode, id, key, unique, drawn).Ok?
    ensures
      var row := RowFor(table, mode, id, key, unique, drawn).value;
      row in table ==> table[row].key == key
  {
    RowForIs(table, mode, id, key, unique, drawn, RowFor(table, mode, id, key, unique, drawn).value);
  }

  /** The step adds its row and its name, and nothing else. */
  ghost predicate AddsItsRow(job: Job, doc: seq<Step>, rows: seq<Id>, k: nat, h: Hier, next: Hier)
    requires k < |doc| == |rows|
  {
    && (forall i, n :: HasName(Rooms(job, next), Zones(job, next), Groups(job, next), i, n) <==>
          HasName(Rooms(job, h), Zones(job, h), Groups(job, h), i, n) || (i == rows[k] && n == NameAt(doc, rows, k)))
    && (forall kind, i :: HasId(Rooms(job, next), Zones(job, next), Groups(job, next), kind, i) <==>
          HasId(Rooms(job, h), Zones(job, h), Groups(job, h), kind, i) || (i == rows[k] && kind == doc[k].Kind()))
    && next.cur == RoomAt(doc, rows, k + 1)
  }

  lemma RoomNext(doc: seq<Step>, rows: seq<Id>, k: nat)
    requires k < |doc| == |rows|
    ensures RoomAt(doc, rows, k + 1) == if doc[k].RoomStep? then rows[k] else RoomAt(doc, rows, k)
  {
  }

  lemma RoomNames(job: Job, h: Hier, next: Hier, row: Id, v: Room)
    requires next.rooms == h.rooms[row := v] && next.zones == h.zones && next.groups == h.groups
    requires row in Rooms(job, h) ==> Rooms(job, h)[row].key == v.key
    ensures forall i, n :: HasName(Rooms(job, next), Zones(job, next), Groups(job, next), i, n) <==>
              HasName(Rooms(job, h), Zones(job, h), Groups(job, h), i, n)
                  || (i == row && n == Name(RoomKind, v.key, ""))
    ensures forall kind, i :: HasId(Rooms(job, next), Zones(job, next), Groups(job, next), kind, i) <==>
              HasId(Rooms(job, h), Zones(job, h), Groups(job, h), kind, i) || (i == row && kind == RoomKind)
  {
    KeysAfter(job.base.rooms, h.rooms, row, v);
  }

  lemma RoomAdds(job: Job, doc: seq<Step>, rows: seq<Id>, k: nat, h: Hier)
    requires k < |doc| == |rows| && h.cur == RoomAt(doc, rows, k) && doc[k].RoomStep?
    requires Apply(job, h, doc[k], k).Ok? && StepRow(job, h, doc[k], k) == rows[k]
    ensures AddsItsRow(job, doc, rows, k, h, Apply(job, h, doc[k], k).value)
  {
    hide RowFor, Mentions, Members, Note, Repeats, HasName, HasId, RoomAt;
    var r, next := doc[k].room, Apply(job, h, doc[k], k).value;
    ChosenRow(Rooms(job, h), job.mode, r.id, r.name.value, true, job.mint(k));
    RoomNames(job, h, next, rows[k], next.rooms[rows[k]]);
    RoomNext(doc, rows, k);
  }

  lemma ZoneNames(job: Job, h: Hier, next: Hier, row: Id, v: Zone)
    requires next.zones == h.zones[row := v] && next.rooms == h.rooms && next.groups == h.groups
    requires row in Zones(job, h) ==> Zones(job, h)[row].key == v.key
    ensures forall i, n :: HasName(Rooms(job, next), Zones(job, next), Groups(job, next), i, n) <==>
              HasName(Rooms(job, h), Zones(job, h), Groups(job, h), i, n)
                  || (i == row && n == Name(ZoneKind, v.key.name, v.key.room))
    ensures forall kind, i :: HasId(Rooms(job, next), Zones(job, next), Groups(job, next), kind, i) <==>
              HasId(Rooms(job, h), Zones(job, h), Groups(job, h), kind, i) || (i == row && kind == ZoneKind)
  {
    KeysAfter(job.base.zones, h.zones, row, v);
  }

  lemma ZoneAdds(job: Job, doc: seq<Step>, rows: seq<Id>, k: nat, h: Hier)
    requires k < |doc| == |rows| && h.cur == RoomAt(doc, rows, k) && doc[k].ZoneStep?
    requires Apply(job, h, doc[k], k).Ok? && StepRow(job, h, doc[k], k) == rows[k]
    ensures AddsItsRow(job, doc, rows, k, h, Apply(job, h, doc[k], k).value)
  {
    hide RowFor, Mentions, Members, Note, Repeats, HasName, HasId, RoomAt;
    var z, next := doc[k].zone, Apply(job, h, doc[k], k).value;
    ChosenRow(Zones(job, h), job.mode, z.id, ZoneKey(z.name.value, h.cur), false, job.mint(k));
    ZoneNames(job, h, next, rows[k], next.zones[rows[k]]);
    RoomNext(doc, rows, k);
  }

  lemma GroupNames(job: Job, h: Hier, next: Hier, row: Id, v: Group)
    requires next.groups == h.groups[row := v] && next.rooms == h.rooms && next.zones == h.zones
    requires row in Groups(job, h) ==> Groups(job, h)[row].key == v.key
    ensures forall i, n :: HasName(Rooms(job, next), Zones(job, next), Groups(job, next), i, n) <==>
              HasName(Rooms(job, h), Zones(job, h), Groups(job, h), i, n)
                  || (i == row && n == Name(GroupKind, v.key, ""))
    ensures forall kind, i :: HasId(Rooms(job, next), Zones(job, next), Groups(job, next), kind, i) <==>
              HasId(Rooms(job, h), Zones(job, h), Groups(job, h), kind, i) || (i == row && kind == GroupKind)
  {
    KeysAfter(job.base.groups, h.groups, row, v);
  }

  lemma GroupAdds(job: Job, doc: seq<Step>, rows: seq<Id>, k: nat, h: Hier)
    requires k < |doc| == |rows| && h.cur == RoomAt(doc, rows, k) && doc[k].GroupStep?
    requires Apply(job, h, doc[k], k).Ok? && StepRow(job, h, doc[k], k) == rows[k]
    ensures AddsItsRow(job, doc, rows, k, h, Apply(job, h, doc[k], k).value)
  {
    hide RowFor, Mentions, Members, Note, Repeats, HasName, HasId, RoomAt;
    var g, next := doc[k].group, Apply(job, h, doc[k], k).value;
    ChosenRow(Groups(job, h), job.mode, g.id, g.name.value, true, job.mint(k));
    GroupNames(job, h, next, rows[k], next.groups[rows[k]]);
    RoomNext(doc, rows, k);
  }

  lemma StepAdds(job: Job, doc: seq<Step>, rows: seq<Id>, k: nat, h: Hier)
    requires k < |doc| == |rows| && h.cur == RoomAt(doc, rows, k)
    requires Apply(job, h, doc[k], k).Ok? && StepRow(job, h, doc[k], k) == rows[k]
    ensures AddsItsRow(job, doc, rows, k, h, Apply(job, h, doc[k], k).value)
  {
    hide Apply, StepRow, AddsItsRow;
    match doc[k]
    case RoomStep(_) => RoomAdds(job, doc, rows, k, h);
    case ZoneStep(_, _) => ZoneAdds(job, doc, rows, k, h);
    case GroupStep(_) => GroupAdds(job, doc, rows, k, h);
  }

  lemma AgreesNext(job: Job, doc: seq<Step>, rows: seq<Id>, k: nat, h: Hier)
    requires k < |doc| == |rows| && Agrees(job, doc, rows, k, h)
    requires Apply(job, h, doc[k], k).Ok? && StepRow(job, h, doc[k], k) == rows[k]
    ensures Agrees(job, doc, rows, k + 1, Apply(job, h, doc[k], k).value)
  {
    StepAdds(job, doc, rows, k, h);
    hide Apply, StepRow, HasName, HasId, RoomAt, NameAt;
  }

  lemma AgreesAtFirst(job: Job, doc: seq<Step>, rows: seq<Id>)
    requires |doc| == |rows|
    ensures Agrees(job, doc, rows, 0, EMPTY)
  {
    assert Rooms(job, EMPTY) == job.base.rooms && Zones(job, EMPTY) == job.base.zones;
    assert Groups(job, EMPTY) == job.base.groups;
  }

  lemma {:induction false} PlanRuns(job: Job, doc: seq<Step>, rows: seq<Id>, k: nat)
    requires IsPlan(job, doc, rows) && k <= |doc|
    ensures Run(job, doc[..k]).Ok? && Agrees(job, doc, rows, k, Run(job, doc[..k]).value)
    decreases k
  {
    hide Apply, StepRow, Stored, Agrees;
    if k == 0 {
      AgreesAtFirst(job, doc, rows);
    } else {
      PlanRuns(job, doc, rows, k - 1);
      RunStep(job, doc, k - 1);
      NextStored(job, doc, rows, k - 1, Run(job, doc[..k - 1]).value);
      AgreesNext(job, doc, rows, k - 1, Run(job, doc[..k - 1]).value);
    }
  }

  lemma {:induction false} RunAgrees(job: Job, doc: seq<Step>, rows: seq<Id>, k: nat)
    requires Run(job, doc).Ok? && |rows| == |doc| && k <= |doc|
    requires forall j :: 0 <= j < |doc| ==> rows[j] == RowOf(job, doc, j)
    ensures Run(job, doc[..k]).Ok? && Agrees(job, doc, rows, k, Run(job, doc[..k]).value)
    decreases k
  {
    hide Apply, StepRow, Agrees;
    if k == 0 {
      AgreesAtFirst(job, doc, rows);
    } else {
      RunAgrees(job, doc, rows, k - 1);
      RunPrefix(job, doc, k);
      RunStep(job, doc, k - 1);
      AgreesNext(job, doc, rows, k - 1, Run(job, doc[..k - 1]).value);
    }
  }

  /** The hierarchy of any envelope is imported, in either mode, exactly when there is a plan for it; the plan
      is then the only one, and the rows it names are those that the import uses. */
  lemma ImportsIffPlanned(job: Job, doc: seq<Step>, rows: seq<Id>)
    ensures IsPlan(job, doc, rows) <==>
              Run(job, doc).Ok? && |rows| == |doc| && forall k :: 0 <= k < |doc| ==> rows[k] == RowOf(job, doc, k)
  {
    hide Apply, StepRow, Stored, Agrees;
    if IsPlan(job, doc, rows) {
      PlanRuns(job, doc, rows, |doc|);
      assert doc[..|doc|] == doc;
      forall k | 0 <= k < |doc| ensures rows[k] == RowOf(job, doc, k) {
        PlanRuns(job, doc, rows, k);
        PlanRuns(job, doc, rows, k + 1);
        NextStored(job, doc, rows, k, Run(job, doc[..k]).value);
      }
    }
    if Run(job, doc).Ok? && |rows| == |doc| && forall k :: 0 <= k < |doc| ==> rows[k] == RowOf(job, doc, k) {
      forall k | 0 <= k < |doc| ensures Stored(job, doc, rows, k) {
        RunAgrees(job, doc, rows, k);
        RunPrefix(job, doc, k + 1);
        RunStep(job, doc, k);
        NextStored(job, doc, rows, k, Run(job, doc[..k]).value);
      }
    }
  }

  /** It fails exactly when there is none. */
  lemma ImportsIffSomePlan(job: Job, doc: seq<Step>)
    ensures Run(job, doc).Ok? <==> exists rows :: IsPlan(job, doc, rows)
  {
    hide Run, IsPlan, RowOf;
    if Run(job, doc).Ok? {
      var rows := seq(|doc|, k requires 0 <= k < |doc| => RowOf(job, doc, k));
      ImportsIffPlanned(job, doc, rows);
    }
    if rows :| IsPlan(job, doc, rows) {
      ImportsIffPlanned(job, doc, rows);
    }
  }
}
