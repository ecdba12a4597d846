/** When the export of one installation can be merged into another: the import fails on a name that the
    other has twice, or on an id that it has under another name, and on nothing else. */
module MergeSuccess {
  import opened Prelude
  import opened Stores
  import opened Envelopes
  import opened Hierarchy
  import opened HierarchyFacts
  import opened Tables
  import opened Exports
  import opened Replay
  import opened Backups
  import opened Mirrors
  import opened RestoreExport

  // ---------- One table

  /** The entry of row `x`, coming after those of `before`, finds one local row of its name or an earlier
      entry's, or brings an id that is free here. */
  ghost predicate Enters<K(!new), A(!new)>(own: map<Id, Keyed<K, A>>, base: map<Id, Keyed<K, A>>, before: set<Id>,
                                           x: Id)
    requires x in own
  {
    var hits := Hits(base, own[x].key);
    && (forall i, j :: i in hits && j in hits ==> i == j)
    && (hits == {} && (forall y :: y in before && y in own ==> own[y].key != own[x].key) ==> x !in base)
  }

  /** The row written for an entry that brought its own id. */
  ghost predicate Brought<K(!new), A(!new)>(own: map<Id, Keyed<K, A>>, base: map<Id, Keyed<K, A>>, before: set<Id>,
                                            i: Id, row: Keyed<K, A>)
  {
    i !in base && i in before && i in own && row.key == own[i].key && Hits(base, row.key) == {}
  }

  /** The rows written for the entries `before`: local rows of their names, or the entries' own; each name
      is there, and no two new rows share one. */
  ghost predicate InPlace<K(!new), A(!new)>(own: map<Id, Keyed<K, A>>, base: map<Id, Keyed<K, A>>,
                                            rows: map<Id, Keyed<K, A>>, before: set<Id>)
  {
    && (forall i :: i in rows ==> (i in base && rows[i].key == base[i].key) || Brought(own, base, before, i, rows[i]))
    && (forall y :: y in before && y in own ==> Hits(base + rows, own[y].key) != {})
    && (forall i, j :: i in rows && j in rows && i !in base && j !in base && rows[i].key == rows[j].key ==> i == j)
  }

  lemma HitsOfKnownName<K(!new), A(!new)>(own: map<Id, Keyed<K, A>>, base: map<Id, Keyed<K, A>>,
                                          rows: map<Id, Keyed<K, A>>, before: set<Id>, key: K)
    requires InPlace(own, base, rows, before) && Hits(base, key) != {}
    ensures Hits(base + rows, key) == Hits(base, key)
  {
    forall i ensures i in Hits(base + rows, key) <==> i in Hits(base, key) {
    }
  }

  lemma HitsOfNewName<K(!new), A(!new)>(own: map<Id, Keyed<K, A>>, base: map<Id, Keyed<K, A>>,
                                        rows: map<Id, Keyed<K, A>>, before: set<Id>, key: K, i: Id)
    requires InPlace(own, base, rows, before) && Hits(base, key) == {} && i in Hits(base + rows, key)
    ensures i in rows && Brought(own, base, before, i, rows[i]) && Hits(base + rows, key) == {i}
  {
    forall j | j in Hits(base + rows, key) ensures j == i {
      assert j in rows && rows[j].key == key;
    }
  }

  /** The row choice succeeds exactly when the entry enters. */
  lemma RowForEnters<K(!new), A(!new)>(own: map<Id, Keyed<K, A>>, base: map<Id, Keyed<K, A>>,
                                       rows: map<Id, Keyed<K, A>>,
                                       before: set<Id>, x: Id, unique: bool, drawn: Id)
    requires InPlace(own, base, rows, before) && x in own && x !in before && x != ""
    ensures RowFor(base + rows, Merge, Some(x), own[x].key, unique, drawn).Ok? <==> Enters(own, base, before, x)
  {
    var key := own[x].key;
    var hits := Hits(base + rows, key);
    if Hits(base, key) != {} {
      HitsOfKnownName(own, base, rows, before, key);
      RowOfHits(base + rows, Some(x), key, unique, drawn);
    } else if hits != {} {
      var i :| i in hits;
      HitsOfNewName(own, base, rows, before, key, i);
      RowOfHits(base + rows, Some(x), key, unique, drawn);
    } else {
      assert forall y :: y in before && y in own ==> own[y].key != key;
      assert x in base + rows <==> x in base;
    }
  }

  /** A merge takes a row of that name if there is exactly one, and fails if there are several. */
  lemma RowOfHits<K(!new), A(!new)>(table: map<Id, Keyed<K, A>>, id: Option<Id>, key: K, unique: bool, drawn: Id)
    requires Hits(table, key) != {}
    ensures RowFor(table, Merge, id, key, unique, drawn).Ok? <==>
              forall i, j :: i in Hits(table, key) && j in Hits(table, key) ==> i == j
    ensures RowFor(table, Merge, id, key, unique, drawn).Ok? ==>
              Hits(table, key) == {RowFor(table, Merge, id, key, unique, drawn).value}
  {
  }

  lemma HitsGrow<K(!new), A(!new)>(table: map<Id, Keyed<K, A>>, i: Id, row: Keyed<K, A>, key: K)
    requires i in table ==> table[i].key == row.key
    ensures Hits(table[i := row], key) == Hits(table, key) + if row.key == key then {i} else {}
  {
  }

  /** The entry's row keeps the table in place. */
  lemma StaysInPlace<K(!new), A(!new)>(own: map<Id, Keyed<K, A>>, base: map<Id, Keyed<K, A>>,
                                       rows: map<Id, Keyed<K, A>>,
                                       before: set<Id>, x: Id, unique: bool, drawn: Id, row: Keyed<K, A>)
    requires InPlace(own, base, rows, before) && x in own && x !in before && x != "" && row.key == own[x].key
    requires RowFor(base + rows, Merge, Some(x), own[x].key, unique, drawn).Ok?
    ensures
      var i := RowFor(base + rows, Merge, Some(x), own[x].key, unique, drawn).value;
      InPlace(own, base, rows[i := row], before + {x})
  {
    var key, after := own[x].key, before + {x};
    var i := RowFor(base + rows, Merge, Some(x), key, unique, drawn).value;
    if Hits(base + rows, key) != {} {
      RowOfHits(base + rows, Some(x), key, unique, drawn);
    }
    assert i in base ==> base[i].key == key;
    assert i !in base ==> Brought(own, base, after, i, row);
    assert base + rows[i := row] == (base + rows)[i := row];
    forall y | y in after && y in own ensures Hits(base + rows[i := row], own[y].key) != {} {
      HitsGrow(base + rows, i, row, own[y].key);
    }
    forall j, k | j in rows[i := row] && k in rows[i := row] && j !in base && k !in base
        && rows[i := row][j].key == rows[i := row][k].key
      ensures j == k
    {
      assert j != i ==> j in Hits(base + rows, rows[j].key);
      assert k != i ==> k in Hits(base + rows, rows[k].key);
    }
  }

  /** The row that an entry with this name is stored in: the local row of the name, or its own. */
  ghost function Seat<K(!new), A(!new)>(base: map<Id, Keyed<K, A>>, key: K, own: Id): Id {
    var hits := Hits(base, key);
    if hits == {} then own else var i :| i in hits; i
  }

  lemma RowForSeat<K(!new), A(!new)>(own: map<Id, Keyed<K, A>>, base: map<Id, Keyed<K, A>>, rows: map<Id, Keyed<K, A>>,
                                     before: set<Id>, x: Id, unique: bool, drawn: Id)
    requires InPlace(own, base, rows, before) && UniqueKeys(own) && x in own && x !in before && x != ""
    requires RowFor(base + rows, Merge, Some(x), own[x].key, unique, drawn).Ok?
    ensures RowFor(base + rows, Merge, Some(x), own[x].key, unique, drawn).value == Seat(base, own[x].key, x)
  {
    var key := own[x].key;
    var hits := Hits(base + rows, key);
    if Hits(base, key) != {} {
      HitsOfKnownName(own, base, rows, before, key);
      RowOfHits(base + rows, Some(x), key, unique, drawn);
    } else if hits != {} {
      var i :| i in hits;
      HitsOfNewName(own, base, rows, before, key, i);
    }
  }

  // ---------- The document

  ghost function RoomSeat(src: Store, dst: Store, x: Id): Id
    requires x in src.rooms
  {
    Seat(dst.rooms, src.rooms[x].key, x)
  }

  /** The exported zones, each in the row that its room goes to. */
  ghost function SeatedZones(src: Store, dst: Store): map<Id, Zone> {
    map z | z in src.zones && src.zones[z].key.room in src.rooms ::
      Keyed(ZoneKey(src.zones[z].key.name, RoomSeat(src, dst, src.zones[z].key.room)), src.zones[z].attrs)
  }

  /** The entry `s`, coming after the entries `front`, can be merged into `dst`. */
  ghost predicate EntersStep(src: Store, dst: Store, front: seq<Step>, s: Step)
    requires ExportsStep(src, s)
  {
    match s
    case RoomStep(r) => Enters(src.rooms, dst.rooms, IdsOf(front, RoomKind), r.id.value)
    case ZoneStep(_, z) => Enters(SeatedZones(src, dst), dst.zones, IdsOf(front, ZoneKind), z.id.value)
    case GroupStep(g) => Enters(src.groups, dst.groups, IdsOf(front, GroupKind), g.id.value)
  }

  ghost predicate EntersAll(src: Store, dst: Store, doc: seq<Step>)
    requires ExportsDocument(src, doc)
  {
    forall k :: 0 <= k < |doc| ==> EntersStep(src, dst, doc[..k], doc[k])
  }

  ghost predicate MergesInto(src: Store, dst: Store, job: Job) {
    && Valid(src) && UniqueMacs(job.base.devices) && job.mode == Merge
    && job.base.rooms == dst.rooms && job.base.zones == dst.zones && job.base.groups == dst.groups
  }

  /** All three tables are in place, and the current row is that of the room being visited. */
  ghost predicate AllInPlace(src: Store, dst: Store, doc: seq<Step>, h: Hier) {
    && InPlace(src.rooms, dst.rooms, h.rooms, IdsOf(doc, RoomKind))
    && InPlace(SeatedZones(src, dst), dst.zones, h.zones, IdsOf(doc, ZoneKind))
    && InPlace(src.groups, dst.groups, h.groups, IdsOf(doc, GroupKind))
    && (doc != [] ==> match doc[|doc| - 1]
                      case RoomStep(r) => IsSeat(src, dst, r.id, h.cur)
                      case ZoneStep(p, _) => IsSeat(src, dst, p.id, h.cur)
                      case GroupStep(_) => true)
  }

  ghost predicate IsSeat(src: Store, dst: Store, id: Option<Id>, row: Id) {
    id.Some? && id.value in src.rooms && row == RoomSeat(src, dst, id.value)
  }

  lemma EnterRoom(src: Store, dst: Store, job: Job, h: Hier, front: seq<Step>, r: RoomItem, n: nat)
    requires MergesInto(src, dst, job) && AllInPlace(src, dst, front, h)
    requires ExportsRoom(src, r) && r.id.value !in IdsOf(front, RoomKind)
    ensures ApplyRoom(job, h, r, n).Ok? <==> Enters(src.rooms, dst.rooms, IdsOf(front, RoomKind), r.id.value)
    ensures ApplyRoom(job, h, r, n).Ok? ==>
              var next := ApplyRoom(job, h, r, n).value;
              && InPlace(src.rooms, dst.rooms, next.rooms, IdsOf(front, RoomKind) + {r.id.value})
              && next.zones == h.zones && next.groups == h.groups && IsSeat(src, dst, r.id, next.cur)
  {
    hide InPlace, Enters, RowFor, Seat;
    var x, before, drawn := r.id.value, IdsOf(front, RoomKind), job.mint(n);
    RowForEnters(src.rooms, dst.rooms, h.rooms, before, x, true, drawn);
    if ApplyRoom(job, h, r, n).Ok? {
      StaysInPlace(src.rooms, dst.rooms, h.rooms, before, x, true, drawn,
                   Keyed(r.name.value, Look(r.icon, OrElse(r.sortOrder, 0))));
      RowForSeat(src.rooms, dst.rooms, h.rooms, before, x, true, drawn);
    }
  }

  lemma EnterZone(src: Store, dst: Store, job: Job, h: Hier, front: seq<Step>, p: RoomItem, z: ZoneItem, n: nat)
    requires MergesInto(src, dst, job) && AllInPlace(src, dst, front, h)
    requires ExportsRoom(src, p) && ExportsZone(src, p.id.value, z) && z.id.value !in IdsOf(front, ZoneKind)
    requires IsSeat(src, dst, p.id, h.cur)
    ensures ApplyZone(job, h, z, n).Ok? <==>
        Enters(SeatedZones(src, dst), dst.zones, IdsOf(front, ZoneKind), z.id.value)
    ensures ApplyZone(job, h, z, n).Ok? ==>
              var next := ApplyZone(job, h, z, n).value;
              && InPlace(SeatedZones(src, dst), dst.zones, next.zones, IdsOf(front, ZoneKind) + {z.id.value})
              && next.rooms == h.rooms && next.groups == h.groups && next.cur == h.cur
  {
    hide InPlace, Enters, RowFor, Seat;
    var own, x, before, drawn := SeatedZones(src, dst), z.id.value, IdsOf(front, ZoneKind), job.mint(n);
    assert own[x].key == ZoneKey(z.name.value, h.cur);
    RowForEnters(own, dst.zones, h.zones, before, x, false, drawn);
    if ApplyZone(job, h, z, n).Ok? {
      StaysInPlace(own, dst.zones, h.zones, before, x, false, drawn,
                   Keyed(own[x].key, Look(z.icon, OrElse(z.sortOrder, 0))));
    }
  }

  lemma EnterGroup(src: Store, dst: Store, job: Job, h: Hier, front: seq<Step>, g: GroupItem, n: nat)
    requires MergesInto(src, dst, job) && AllInPlace(src, dst, front, h)
    requires ExportsGroup(src, g) && g.id.value !in IdsOf(front, GroupKind)
    ensures ApplyGroup(job, h, g, n).Ok? <==> Enters(src.groups, dst.groups, IdsOf(front, GroupKind), g.id.value)
    ensures ApplyGroup(job, h, g, n).Ok? ==>
              var next := ApplyGroup(job, h, g, n).value;
              && InPlace(src.groups, dst.groups, next.groups, IdsOf(front, GroupKind) + {g.id.value})
              && next.rooms == h.rooms && next.zones == h.zones
  {
    hide InPlace, Enters, RowFor, Seat;
    var x, before, drawn := g.id.value, IdsOf(front, GroupKind), job.mint(n);
    MembersAreCarried(src, job.base.devices, g.macs, src.groups[x].attrs.members);
    RowForEnters(src.groups, dst.groups, h.groups, before, x, true, drawn);
    if ApplyGroup(job, h, g, n).Ok? {
      StaysInPlace(src.groups, dst.groups, h.groups, before, x, true, drawn,
                   Keyed(g.name.value, Roster(Look(g.icon, OrElse(g.sortOrder, 0)),
                                              Members(job.base.devices, g.macs))));
    }
  }

  lemma EnterStep(src: Store, dst: Store, job: Job, doc: seq<Step>, h: Hier)
    requires MergesInto(src, dst, job) && ExportsDocument(src, doc) && doc != []
    requires AllInPlace(src, dst, doc[..|doc| - 1], h)
    ensures
      var n := |doc| - 1;
      && (Apply(job, h, doc[n], n).Ok? <==> EntersStep(src, dst, doc[..n], doc[n]))
      && (Apply(job, h, doc[n], n).Ok? ==> AllInPlace(src, dst, doc, Apply(job, h, doc[n], n).value))
  {
    hide InPlace, Enters, IsSeat, ApplyRoom, ApplyZone, ApplyGroup, MergesInto;
    var n := |doc| - 1;
    var front := doc[..n];
    LastIsNew(src, doc);
    match doc[n]
    case RoomStep(r) => EnterRoom(src, dst, job, h, front, r, n);
    case ZoneStep(p, z) =>
      assert front[n - 1] == doc[n - 1] && InRoom(doc[n - 1], p);
      EnterZone(src, dst, job, h, front, p, z, n);
    case GroupStep(g) => EnterGroup(src, dst, job, h, front, g, n);
  }

  lemma NothingInPlace(src: Store, dst: Store)
    ensures AllInPlace(src, dst, [], EMPTY)
  {
  }

  lemma EntersOneMore(src: Store, dst: Store, doc: seq<Step>)
    requires ExportsDocument(src, doc) && doc != []
    ensures
      var n := |doc| - 1;
      && ExportsDocument(src, doc[..n])
      && (EntersAll(src, dst, doc) <==> EntersAll(src, dst, doc[..n]) && EntersStep(src, dst, doc[..n], doc[n]))
  {
    hide EntersStep, ExportsStep;
    var n := |doc| - 1;
    assert forall k :: 0 <= k < n ==> doc[..n][k] == doc[k] && doc[..n][..k] == doc[..k];
  }

  /** The hierarchy of an export is merged exactly when each of its entries enters. */
  lemma {:induction false} RunEnters(src: Store, dst: Store, job: Job, doc: seq<Step>)
    requires MergesInto(src, dst, job) && ExportsDocument(src, doc)
    ensures Run(job, doc).Ok? <==> EntersAll(src, dst, doc)
    ensures Run(job, doc).Ok? ==> AllInPlace(src, dst, doc, Run(job, doc).value)
    decreases |doc|
  {
    hide AllInPlace, ExportsDocument, EntersStep, Apply, MergesInto;
    if doc == [] {
      NothingInPlace(src, dst);
    } else {
      var n := |doc| - 1;
      EntersOneMore(src, dst, doc);
      RunEnters(src, dst, job, doc[..n]);
      if Run(job, doc[..n]).Ok? {
        EnterStep(src, dst, job, doc, Run(job, doc[..n]).value);
      }
    }
  }

  // ---------- The whole envelope

  /** Exported items load into any table, unless one of them is refused on sight. */
  lemma ItemsLoad<V(!new)>(table: map<Id, Owned<V>>, base: map<Id, Owned<V>>, change: V -> V, user: Id, mint: nat -> Id,
                           entries: seq<Entry<V>>)
    requires "" !in table && ReadsTable(table, change, entries)
    ensures LoadAll(base, Merge, user, mint, entries).Ok? <==> forall k :: 0 <= k < |entries| ==> entries[k].early.None?
  {
    hide LoadAll;
    if LoadAll(base, Merge, user, mint, entries).Ok? {
      EarlyNever(base, Merge, user, mint, entries);
    }
    if forall k :: 0 <= k < |entries| ==> entries[k].early.None? {
      assert Clean(entries);
      LoadClean(base, Merge, user, mint, entries);
    }
  }

  lemma TablesLoad(src: Store, dst: Store, env: Envelope, user: Id, mint: Mint, remap: map<Id, Id>)
    requires Valid(src) && IsExport(src, env)
    ensures LoadSchedules(dst, env, Merge, user, mint, remap).Ok? && LoadScenes(dst, env, Merge, user, mint).Ok?
    ensures LoadActions(dst, env, Merge, user, mint, remap).Ok? <==> AllHaveTargets(src.actions)
  {
    hide LoadAll, ReadsTable, AllHaveTargets;
    ReadScheduleTable(src, env.schedules, remap);
    ItemsLoad(src.schedules, dst.schedules, (v: Schedule) => RemapSchedule(remap, v), user, mint.schedules,
              ScheduleEntries(remap, env.schedules));
    ReadActionTable(src, env.actions, remap);
    ItemsLoad(src.actions, dst.actions, (v: QuickAction) => RemapAction(remap, v), user, mint.actions,
              ActionEntries(remap, env.actions));
    ReadSceneTable(src, env.scenes);
    ItemsLoad(src.scenes, dst.scenes, (v: Scene) => v, user, mint.scenes, SceneEntries(env.scenes));
  }

  lemma DestinationReady(src: Store, dst: Store, env: Envelope, mint: Mint)
    requires Valid(src) && Valid(dst)
    ensures MergesInto(src, dst, HierarchyJob(dst, env, Merge, mint))
  {
  }

  /** Merging an export of one installation into another succeeds exactly when every quick action has a
      target and every room, zone and group entry enters. */
  lemma MergeSucceedsIff(src: Store, dst: Store, env: Envelope, user: Id, mint: Mint)
    requires Valid(src) && Valid(dst) && IsExport(src, env)
    ensures ExportsDocument(src, Document(env))
    ensures Restore(dst, env, Merge, user, mint).Ok? <==>
              AllHaveTargets(src.actions) && EntersAll(src, dst, Document(env))
  {
    hide Run, AllHaveTargets, ExportsDocument, EntersAll, Document, HierarchyJob, MergesInto, LoadSchedules,
        LoadActions,
      LoadScenes, AllInPlace, Assemble;
    var job := HierarchyJob(dst, env, Merge, mint);
    ExportDocument(src, env);
    DestinationReady(src, dst, env, mint);
    RunEnters(src, dst, job, Document(env));
    if Run(job, Document(env)).Ok? {
      var h := Run(job, Document(env)).value;
      TablesLoad(src, dst, env, user, mint, IdRemap(dst, env, h));
      RestoreParts(dst, env, Merge, user, mint, h);
    }
  }

  // ---------- The same on the two stores

  /** At most one local row has this name, and if none has, the id is free here. */
  ghost predicate Free<K(!new), A(!new)>(base: map<Id, Keyed<K, A>>, key: K, own: Id) {
    var hits := Hits(base, key);
    (forall i, j :: i in hits && j in hits ==> i == j) && (hits == {} ==> own !in base)
  }

  ghost predicate AllFree<K(!new), A(!new)>(own: map<Id, Keyed<K, A>>, base: map<Id, Keyed<K, A>>) {
    forall x :: x in own ==> Free(base, own[x].key, x)
  }

  /** No exported room, zone or group clashes with `dst`. */
  ghost predicate Compatible(src: Store, dst: Store) {
    AllFree(src.rooms, dst.rooms) && AllFree(SeatedZones(src, dst), dst.zones) && AllFree(src.groups, dst.groups)
  }

  lemma EntersIsFree<K(!new), A(!new)>(own: map<Id, Keyed<K, A>>, base: map<Id, Keyed<K, A>>, before: set<Id>, x: Id)
    requires UniqueKeys(own) && x in own && x !in before
    ensures Enters(own, base, before, x) <==> Free(base, own[x].key, x)
  {
  }

  lemma SeatsApart(src: Store, dst: Store, x: Id, y: Id)
    requires UniqueKeys(src.rooms) && AllFree(src.rooms, dst.rooms) && x in src.rooms && y in src.rooms
    requires RoomSeat(src, dst, x) == RoomSeat(src, dst, y)
    ensures x == y
  {
    assert Free(dst.rooms, src.rooms[x].key, x) && Free(dst.rooms, src.rooms[y].key, y);
  }

  lemma SeatedZonesUnique(src: Store, dst: Store)
    requires UniqueKeys(src.rooms) && UniqueZones(src) && AllFree(src.rooms, dst.rooms)
    ensures UniqueKeys(SeatedZones(src, dst))
  {
    hide AllFree, RoomSeat;
    var own := SeatedZones(src, dst);
    forall y, z | y in own && z in own && own[y].key == own[z].key ensures y == z {
      SeatsApart(src, dst, src.zones[y].key.room, src.zones[z].key.room);
    }
  }

  lemma StepIsFree(src: Store, dst: Store, doc: seq<Step>, k: nat)
    requires ExportsDocument(src, doc) && k < |doc| && UniqueKeys(src.rooms) && UniqueKeys(src.groups)
    ensures
      var s := doc[k];
      && s.Id().Some?
      && match s.Kind()
         case RoomKind =>
           s.Id().value in src.rooms &&
           (EntersStep(src, dst, doc[..k], s) <==> Free(dst.rooms, src.rooms[s.Id().value].key, s.Id().value))
         case ZoneKind =>
           s.Id().value in SeatedZones(src, dst) &&
           (UniqueKeys(SeatedZones(src, dst)) ==>
              (EntersStep(src, dst, doc[..k], s) <==>
                 Free(dst.zones, SeatedZones(src, dst)[s.Id().value].key, s.Id().value)))
         case GroupKind =>
           s.Id().value in src.groups &&
           (EntersStep(src, dst, doc[..k], s) <==> Free(dst.groups, src.groups[s.Id().value].key, s.Id().value))
  {
    hide Enters, Free, UniqueKeys, WellNested;
    var front := doc[..k + 1];
    assert front[..k] == doc[..k] && front[k] == doc[k] && ExportsStep(src, doc[k]);
    NewInFront(src, doc, k);
    match doc[k]
    case RoomStep(r) => EntersIsFree(src.rooms, dst.rooms, IdsOf(doc[..k], RoomKind), r.id.value);
    case ZoneStep(_, z) =>
      if UniqueKeys(SeatedZones(src, dst)) {
        EntersIsFree(SeatedZones(src, dst), dst.zones, IdsOf(doc[..k], ZoneKind), z.id.value);
      }
    case GroupStep(g) => EntersIsFree(src.groups, dst.groups, IdsOf(doc[..k], GroupKind), g.id.value);
  }

  lemma NewInFront(src: Store, doc: seq<Step>, k: nat)
    requires ExportsDocument(src, doc) && k < |doc|
    ensures doc[k].Id().Some? && doc[k].Id().value !in IdsOf(doc[..k], doc[k].Kind())
  {
    hide ExportsStep;
    var front := doc[..k + 1];
    assert front[..k] == doc[..k];
    LastIsNew(src, front);
  }

  ghost predicate KindEnters(src: Store, dst: Store, doc: seq<Step>, kind: Kind)
    requires ExportsDocument(src, doc)
  {
    forall k :: 0 <= k < |doc| && doc[k].Kind() == kind ==> EntersStep(src, dst, doc[..k], doc[k])
  }

  lemma EntryFor(src: Store, doc: seq<Step>, kind: Kind, x: Id) returns (k: nat)
    requires CoversStore(src, doc) && x in ShownIds(src, kind)
    ensures k < |doc| && doc[k].Kind() == kind && doc[k].Id() == Some(x)
  {
    assert Carries(doc, kind, x);
    k :| 0 <= k < |doc| && doc[k].Kind() == kind && doc[k].Id() == Some(x);
  }

  lemma RoomsEnter(src: Store, dst: Store, doc: seq<Step>)
    requires ExportsDocument(src, doc) && CoversStore(src, doc) && UniqueKeys(src.rooms) && UniqueKeys(src.groups)
    ensures KindEnters(src, dst, doc, RoomKind) <==> AllFree(src.rooms, dst.rooms)
  {
    hide EntersStep, Free, UniqueKeys, ExportsStep, WellNested, DistinctRows, CoversStore;
    forall k | 0 <= k < |doc| && doc[k].Kind() == RoomKind && AllFree(src.rooms, dst.rooms)
      ensures EntersStep(src, dst, doc[..k], doc[k])
    {
      StepIsFree(src, dst, doc, k);
    }
    forall x | x in src.rooms && KindEnters(src, dst, doc, RoomKind) ensures Free(dst.rooms, src.rooms[x].key, x) {
      var k := EntryFor(src, doc, RoomKind, x);
      StepIsFree(src, dst, doc, k);
    }
  }

  lemma GroupsEnter(src: Store, dst: Store, doc: seq<Step>)
    requires ExportsDocument(src, doc) && CoversStore(src, doc) && UniqueKeys(src.rooms) && UniqueKeys(src.groups)
    ensures KindEnters(src, dst, doc, GroupKind) <==> AllFree(src.groups, dst.groups)
  {
    hide EntersStep, Free, UniqueKeys, ExportsStep, WellNested, DistinctRows, CoversStore;
    forall k | 0 <= k < |doc| && doc[k].Kind() == GroupKind && AllFree(src.groups, dst.groups)
      ensures EntersStep(src, dst, doc[..k], doc[k])
    {
      StepIsFree(src, dst, doc, k);
    }
    forall x | x in src.groups && KindEnters(src, dst, doc, GroupKind) ensures Free(dst.groups, src.groups[x].key, x) {
      var k := EntryFor(src, doc, GroupKind, x);
      StepIsFree(src, dst, doc, k);
    }
  }

  lemma ZonesEnter(src: Store, dst: Store, doc: seq<Step>)
    requires ExportsDocument(src, doc) && CoversStore(src, doc) && UniqueKeys(src.rooms) && UniqueKeys(src.groups)
    requires UniqueKeys(SeatedZones(src, dst))
    ensures KindEnters(src, dst, doc, ZoneKind) <==> AllFree(SeatedZones(src, dst), dst.zones)
  {
    hide EntersStep, Free, UniqueKeys, ExportsStep, WellNested, DistinctRows, CoversStore;
    var own := SeatedZones(src, dst);
    forall k | 0 <= k < |doc| && doc[k].Kind() == ZoneKind && AllFree(own, dst.zones)
      ensures EntersStep(src, dst, doc[..k], doc[k])
    {
      StepIsFree(src, dst, doc, k);
    }
    forall x | x in own && KindEnters(src, dst, doc, ZoneKind) ensures Free(dst.zones, own[x].key, x) {
      assert x in ShownIds(src, ZoneKind);
      var k := EntryFor(src, doc, ZoneKind, x);
      StepIsFree(src, dst, doc, k);
    }
  }

  lemma ByKinds(src: Store, dst: Store, doc: seq<Step>)
    requires ExportsDocument(src, doc)
    ensures EntersAll(src, dst, doc) <==>
              KindEnters(src, dst, doc, RoomKind) && KindEnters(src, dst, doc, ZoneKind)
                  && KindEnters(src, dst, doc, GroupKind)
  {
    hide EntersStep, ExportsStep, WellNested;
    forall k | 0 <= k < |doc| ensures doc[k].Kind() in {RoomKind, ZoneKind, GroupKind} {
    }
  }

  lemma EveryRowEnters(src: Store, dst: Store, doc: seq<Step>)
    requires ExportsDocument(src, doc) && CoversStore(src, doc) && UniqueKeys(src.rooms) && UniqueKeys(src.groups)
    requires UniqueZones(src)
    ensures EntersAll(src, dst, doc) <==> Compatible(src, dst)
  {
    hide UniqueZones, UniqueKeys, ExportsDocument, CoversStore, KindEnters, EntersAll, AllFree;
    ByKinds(src, dst, doc);
    RoomsEnter(src, dst, doc);
    GroupsEnter(src, dst, doc);
    if AllFree(src.rooms, dst.rooms) {
      SeatedZonesUnique(src, dst);
      ZonesEnter(src, dst, doc);
    }
  }

  /** For an exported store whose zone names are unique in each room, a merge into `dst` succeeds exactly when
      every quick action has a target and each room, zone and group finds at most one local row of its name
      and, failing that, its id free. */
  lemma MergeSucceedsIffCompatible(src: Store, dst: Store, env: Envelope, user: Id, mint: Mint)
    requires Valid(src) && Valid(dst) && IsExport(src, env) && UniqueZones(src)
    ensures Restore(dst, env, Merge, user, mint).Ok? <==> AllHaveTargets(src.actions) && Compatible(src, dst)
  {
    hide UniqueZones, IsExport, ExportsDocument, CoversStore, EntersAll, Restore, AllHaveTargets, Compatible, Document;
    MergeSucceedsIff(src, dst, env, user, mint);
    DocumentCovers(src, env);
    EveryRowEnters(src, dst, Document(env));
  }

  // ---------- Where each exported row goes

  lemma SeatInPlace<K(!new), A(!new)>(own: map<Id, Keyed<K, A>>, base: map<Id, Keyed<K, A>>, rows: map<Id, Keyed<K, A>>,
                                      before: set<Id>, x: Id, i: Id)
    requires InPlace(own, base, rows, before) && UniqueKeys(own) && x in own && i in Hits(base + rows, own[x].key)
    requires forall j, k :: j in Hits(base, own[x].key) && k in Hits(base, own[x].key) ==> j == k
    ensures i == Seat(base, own[x].key, x)
  {
    if Hits(base, own[x].key) != {} {
      HitsOfKnownName(own, base, rows, before, own[x].key);
    } else {
      HitsOfNewName(own, base, rows, before, own[x].key, i);
    }
  }

  /** The row that an exported room, zone or group goes to. */
  ghost function SeatOf(src: Store, dst: Store, kind: Kind, x: Id): Id
    requires x in ShownIds(src, kind)
  {
    match kind
    case RoomKind => RoomSeat(src, dst, x)
    case ZoneKind => Seat(dst.zones, SeatedZones(src, dst)[x].key, x)
    case GroupKind => Seat(dst.groups, src.groups[x].key, x)
  }

  lemma SeatOfRoom(src: Store, dst: Store, job: Job, doc: seq<Step>, h: Hier, x: Id, i: Id)
    requires MergesInto(src, dst, job) && UniqueKeys(dst.rooms) && AllInPlace(src, dst, doc, h)
    requires x in src.rooms && i in Rooms(job, h) && Rooms(job, h)[i].key == src.rooms[x].key
    ensures i == RoomSeat(src, dst, x)
  {
    hide InPlace, Seat;
    SeatInPlace(src.rooms, dst.rooms, h.rooms, IdsOf(doc, RoomKind), x, i);
  }

  /** A merged room, zone or group is stored in the local row of its name or, if there is none, in one under
      its own id; a zone is looked for in the row that its room goes to. */
  lemma RowIsSeat(src: Store, dst: Store, job: Job, doc: seq<Step>, k: nat)
    requires MergesInto(src, dst, job) && UniqueKeys(dst.rooms) && UniqueKeys(dst.groups)
    requires ExportsDocument(src, doc) && Run(job, doc).Ok? && k < |doc|
    ensures doc[k].Id().Some? && doc[k].Id().value in ShownIds(src, doc[k].Kind())
    ensures
      var x := doc[k].Id().value;
      (doc[k].ZoneStep? ==> UniqueKeys(SeatedZones(src, dst)) && Free(dst.zones, SeatedZones(src, dst)[x].key, x)) ==>
        RowOf(job, doc, k) == SeatOf(src, dst, doc[k].Kind(), x)
  {
    hide Run, RowOf, InPlace, Seat, WellNested, DistinctRows;
    assert ExportsStep(src, doc[k]);
    var h, i := Run(job, doc).value, RowOf(job, doc, k);
    RunEnters(src, dst, job, doc);
    RowOfNames(job, doc, k);
    match doc[k]
    case RoomStep(r) => SeatOfRoom(src, dst, job, doc, h, r.id.value, i);
    case ZoneStep(p, z) =>
      SeatOfRoom(src, dst, job, doc, h, p.id.value, Zones(job, h)[i].key.room);
      if UniqueKeys(SeatedZones(src, dst)) && Free(dst.zones, SeatedZones(src, dst)[z.id.value].key, z.id.value) {
        SeatInPlace(SeatedZones(src, dst), dst.zones, h.zones, IdsOf(doc, ZoneKind), z.id.value, i);
      }
    case GroupStep(g) => SeatInPlace(src.groups, dst.groups, h.groups, IdsOf(doc, GroupKind), g.id.value, i);
  }
}
