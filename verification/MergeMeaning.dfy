/** Merging an export of one installation into another that has rows of its own: here ids of rooms, zones
    and groups really change. What the merged targets address. */
module MergeMeaning {
  import opened Prelude
  import opened Stores
  import opened Envelopes
  import opened Hierarchy
  import opened HierarchyFacts
  import opened HierarchyRerun
  import opened HierarchyRows
  import opened Tables
  import opened Exports
  import opened Replay
  import opened Backups
  import opened Mirrors
  import opened RestoreExport
  import opened RestoreFacts
  import opened Meaning
  import opened MergeSuccess

  // ---------- The entry of an exported row, and its row after the import

  function KindOf(kind: TargetType): Kind {
    match kind
    case OneZone => ZoneKind
    case OneGroup => GroupKind
    case _ => RoomKind
  }

  /** The id is that of an exported row of this kind, and of no other. */
  ghost predicate OnlyOf(src: Store, kind: Kind, x: Id) {
    x in ShownIds(src, kind) && forall other :: x in ShownIds(src, other) ==> other == kind
  }

  lemma EntryIsShown(src: Store, doc: seq<Step>, k: nat)
    requires ExportsDocument(src, doc) && k < |doc|
    ensures doc[k].Id().Some? && doc[k].Id().value in ShownIds(src, doc[k].Kind())
  {
    assert ExportsStep(src, doc[k]);
  }

  lemma SameEntry(src: Store, doc: seq<Step>, j: nat, k: nat)
    requires ExportsDocument(src, doc) && j < |doc| && k < |doc| && SameRow(doc[j], doc[k])
    ensures j == k
  {
    hide ExportsStep, WellNested;
  }

  /** An id that names rows of one kind only is remapped to its entry's row. */
  lemma RemappedToRow(src: Store, job: Job, doc: seq<Step>, k: nat, x: Id)
    requires Run(job, doc).Ok? && ExportsDocument(src, doc) && k < |doc| && doc[k].Id() == Some(x) && x != ""
    requires OnlyOf(src, doc[k].Kind(), x)
    ensures x in Run(job, doc).value.remap && Run(job, doc).value.remap[x] == RowOf(job, doc, k)
  {
    hide Run, RowOf;
    forall j | k < j < |doc| ensures doc[j].Id() != Some(x) {
      EntryIsShown(src, doc, j);
      if doc[j].Id() == Some(x) {
        SameEntry(src, doc, j, k);
      }
    }
    RemapFollowsLast(job, doc, k, x);
  }

  /** Only ids of exported rows are remapped by the hierarchy. */
  lemma OnlyShownAreRemapped(src: Store, job: Job, doc: seq<Step>, x: Id)
    requires Run(job, doc).Ok? && ExportsDocument(src, doc) && x !in HierarchyIds(src)
    ensures x !in Run(job, doc).value.remap
  {
    hide Run;
    if x in Run(job, doc).value.remap {
      var k := RemapComesFromDocument(job, doc, x);
      EntryIsShown(src, doc, k);
    }
  }

  // ---------- Different rows go to different rows

  /** Rows of one kind that an import by name cannot tell apart: itself, or zones of one name in one room. */
  ghost predicate Alike(src: Store, kind: Kind, x: Id, y: Id) {
    x == y || (kind.ZoneKind? && x in src.zones && y in src.zones && src.zones[x].key == src.zones[y].key)
  }

  lemma NamedAlike(src: Store, job: Job, h: Hier, s: Step, t: Step, i: Id)
    requires UniqueKeys(src.rooms) && UniqueKeys(src.groups) && ExportsStep(src, s) && ExportsStep(src, t)
    requires s.Kind() == t.Kind() && Names(job, h, s, i) && Names(job, h, t, i)
    ensures Alike(src, s.Kind(), s.Id().value, t.Id().value)
  {
  }

  lemma SameRowIsAlike(src: Store, job: Job, doc: seq<Step>, j: nat, k: nat)
    requires UniqueKeys(src.rooms) && UniqueKeys(src.groups) && ExportsDocument(src, doc) && Run(job, doc).Ok?
    requires j < |doc| && k < |doc| && doc[j].Kind() == doc[k].Kind() && RowOf(job, doc, j) == RowOf(job, doc, k)
    ensures doc[j].Id().Some? && doc[k].Id().Some? && Alike(src, doc[j].Kind(), doc[j].Id().value, doc[k].Id().value)
  {
    hide Run, RowOf, Names, Alike, ExportsStep, DistinctRows;
    EntryIsShown(src, doc, j);
    EntryIsShown(src, doc, k);
    RowOfNames(job, doc, j);
    RowOfNames(job, doc, k);
    NamedAlike(src, job, Run(job, doc).value, doc[j], doc[k], RowOf(job, doc, j));
  }

  lemma ZoneStepSettles(job: Job, h: Hier, s: Step, n: nat)
    requires job.mode == Merge && s.ZoneStep? && Apply(job, h, s, n).Ok?
    ensures
      var next := Apply(job, h, s, n).value;
      s.Name().Some? && next.cur == h.cur
          && Hits(Zones(job, next), ZoneKey(s.Name().value, h.cur)) == {StepRow(job, h, s, n)}
  {
    var z, next := s.zone, Apply(job, h, s, n).value;
    var i := StepRow(job, h, s, n);
    OverlayUpdate(job.base.zones, h.zones, i, next.zones[i]);
    RowForKeepsKeys(Zones(job, h), Merge, z.id, ZoneKey(z.name.value, h.cur), false, job.mint(n), next.zones[i].attrs);
  }

  /** When the import ends, a zone entry's row is the only one of its name in its room. */
  lemma ZoneIsOnly(job: Job, doc: seq<Step>, k: nat) returns (p: nat)
    requires job.mode == Merge && Run(job, doc).Ok? && WellNested(doc) && k < |doc| && doc[k].ZoneStep?
    ensures RoomEntryOf(doc, p, k) && doc[k].Name().Some?
    ensures Hits(Zones(job, Run(job, doc).value),
                 ZoneKey(doc[k].Name().value, RowOf(job, doc, p))) == {RowOf(job, doc, k)}
  {
    hide Apply;
    RunPrefix(job, doc, k);
    RunPrefix(job, doc, k + 1);
    RunStep(job, doc, k);
    p := CurrentRow(job, doc, k);
    var h, next := Run(job, doc[..k]).value, Run(job, doc[..k + 1]).value;
    ZoneStepSettles(job, h, doc[k], k);
    RunSettles(job, doc, k + 1);
    assert RowOf(job, doc, k) in Hits(Zones(job, next), ZoneKey(doc[k].Name().value, next.cur));
  }

  lemma AlikeIsSameRow(src: Store, job: Job, doc: seq<Step>, j: nat, k: nat)
    requires job.mode == Merge && ExportsDocument(src, doc) && Run(job, doc).Ok?
    requires j < |doc| && k < |doc| && doc[j].Kind() == doc[k].Kind()
    requires doc[j].Id().Some? && doc[k].Id().Some? && Alike(src, doc[j].Kind(), doc[j].Id().value, doc[k].Id().value)
    ensures RowOf(job, doc, j) == RowOf(job, doc, k)
  {
    hide Run, RowOf;
    if doc[j].Id() == doc[k].Id() {
      SameEntry(src, doc, j, k);
    } else {
      var p := ZoneIsOnly(job, doc, j);
      var q := ZoneIsOnly(job, doc, k);
      assert ExportsStep(src, doc[j]) && ExportsStep(src, doc[k]) && ExportsStep(src, doc[p])
          && ExportsStep(src, doc[q]);
      SameEntry(src, doc, p, q);
    }
  }

  // ---------- Where the devices end up

  /** The entry lists device `s` where the export shows it. */
  ghost predicate ShownAt(src: Store, e: Step, s: Id) {
    && s in src.devices && ShownRoom(src, src.devices[s]).Some?
    && match e
       case RoomStep(r) => r.id == ShownRoom(src, src.devices[s]) && ShownZone(src, src.devices[s]) == None
       case ZoneStep(p, z) => p.id == ShownRoom(src, src.devices[s]) && z.id == ShownZone(src, src.devices[s])
           && z.id.Some?
       case GroupStep(_) => false
  }

  lemma MentionIsShown(src: Store, e: Step, mac: Mac) returns (s: Id)
    requires ExportsStep(src, e) && mac in e.Macs()
    ensures s in src.devices && src.devices[s].mac == mac && ShownAt(src, e, s)
  {
    var k :| 0 <= k < |e.Macs()| && e.Macs()[k] == mac;
    match e
    case RoomStep(r) =>
      assert r.macs[k] in MacsOf(src, UnzonedIn(src, r.id.value));
      s :| s in UnzonedIn(src, r.id.value) && s in src.devices && src.devices[s].mac == mac;
    case ZoneStep(p, z) =>
      assert z.macs[k] in MacsOf(src, InZone(src, z.id.value));
      s :| s in InZone(src, z.id.value) && s in src.devices && src.devices[s].mac == mac;
  }

  lemma MentionsOf(src: Store, doc: seq<Step>, k: nat, s: Id)
    requires UniqueMacs(src.devices) && ExportsDocument(src, doc) && k < |doc| && s in src.devices
    requires src.devices[s].mac in doc[k].Macs()
    ensures ShownAt(src, doc[k], s)
  {
    hide ShownAt, ExportsStep;
    assert ExportsStep(src, doc[k]);
    var other := MentionIsShown(src, doc[k], src.devices[s].mac);
  }

  /** A device that the export shows somewhere has exactly one entry that lists it. */
  lemma ShownEntry(src: Store, doc: seq<Step>, s: Id) returns (k: nat)
    requires UniqueMacs(src.devices) && ExportsDocument(src, doc) && CoversStore(src, doc)
    requires s in src.devices && ShownRoom(src, src.devices[s]).Some?
    ensures LastMentions(doc, k, src.devices[s].mac) && ShownAt(src, doc[k], s)
  {
    hide ExportsStep, CoversStore;
    k := ShownIsListed(src, doc, s);
    MentionsOf(src, doc, k, s);
    forall j | k < j < |doc| ensures src.devices[s].mac !in doc[j].Macs() {
      if src.devices[s].mac in doc[j].Macs() {
        MentionsOf(src, doc, j, s);
        SameEntry(src, doc, j, k);
      }
    }
  }

  lemma UnshownIsUnlisted(src: Store, doc: seq<Step>, mac: Mac, k: nat)
    requires UniqueMacs(src.devices) && ExportsDocument(src, doc) && k < |doc| && mac in doc[k].Macs()
    ensures Local(src.devices, mac).Some? && ShownRoom(src, src.devices[Local(src.devices, mac).value]).Some?
  {
    hide ExportsStep;
    assert ExportsStep(src, doc[k]);
    var s := MentionIsShown(src, doc[k], mac);
    LocalIs(src.devices, s);
  }

  /** The device of `src` with this MAC, if the export shows it anywhere. */
  ghost function ShownDevice(src: Store, mac: Mac): (r: Option<Id>)
    ensures r.Some? ==>
              r.value in src.devices && src.devices[r.value].mac == mac && ShownRoom(src, src.devices[r.value]).Some?
  {
    var s := Local(src.devices, mac);
    if s.Some? && ShownRoom(src, src.devices[s.value]).Some? then s else None
  }

  /** A device goes where its entry says, or stays for want of one. */
  lemma MergedPlace(src: Store, job: Job, doc: seq<Step>, d: Device) returns (k: nat)
    requires UniqueMacs(src.devices) && ExportsDocument(src, doc) && CoversStore(src, doc) && Run(job, doc).Ok?
    ensures
      var s, placed := ShownDevice(src, d.mac), Placed(d, Run(job, doc).value.log);
      if s.Some? then k < |doc| && ShownAt(src, doc[k], s.value) && PlacedBy(job, doc, k, placed) else placed == d
  {
    hide Run, ShownAt, PlacedBy, ExportsDocument, CoversStore;
    k := 0;
    var s := ShownDevice(src, d.mac);
    if s.Some? {
      k := ShownEntry(src, doc, s.value);
      LastMentionWins(job, doc, k, d);
    } else {
      forall j | 0 <= j < |doc| ensures d.mac !in doc[j].Macs() {
        if d.mac in doc[j].Macs() {
          UnshownIsUnlisted(src, doc, d.mac, j);
        }
      }
      UnmentionedStays(job, doc, d);
    }
  }

  /** Device `s` is exported in a row that the import cannot tell from `x`. */
  ghost predicate Joins(src: Store, kind: TargetType, x: Id, s: Id) {
    && s in src.devices
    && match kind
       case OneRoom => ShownRoom(src, src.devices[s]) == Some(x)
       case OneZone => ShownZone(src, src.devices[s]).Some?
           && Alike(src, ZoneKind, ShownZone(src, src.devices[s]).value, x)
       case OneGroup => x in src.groups && s in src.groups[x].attrs.members
       case _ => false
  }

  lemma RowsOfAlike(src: Store, job: Job, doc: seq<Step>, j: nat, k: nat)
    requires UniqueKeys(src.rooms) && UniqueKeys(src.groups) && job.mode == Merge && ExportsDocument(src, doc)
        && Run(job, doc).Ok?
    requires j < |doc| && k < |doc| && doc[j].Kind() == doc[k].Kind() && doc[j].Id().Some? && doc[k].Id().Some?
    ensures RowOf(job, doc, j) == RowOf(job, doc, k) <==>
        Alike(src, doc[j].Kind(), doc[j].Id().value, doc[k].Id().value)
  {
    hide Run, RowOf, Alike, ExportsDocument;
    if RowOf(job, doc, j) == RowOf(job, doc, k) {
      SameRowIsAlike(src, job, doc, j, k);
    }
    if Alike(src, doc[j].Kind(), doc[j].Id().value, doc[k].Id().value) {
      AlikeIsSameRow(src, job, doc, j, k);
    }
  }

  /** In which room the entry `k` puts its devices, against the row of the room entry `k0`. */
  lemma PlacedInRoom(src: Store, job: Job, doc: seq<Step>, k: nat, k0: nat, s: Id, placed: Device)
    requires UniqueKeys(src.rooms) && UniqueKeys(src.groups) && job.mode == Merge && ExportsDocument(src, doc)
        && Run(job, doc).Ok?
    requires k < |doc| && k0 < |doc| && doc[k0].RoomStep? && doc[k0].Id().Some? && ShownAt(src, doc[k], s)
        && PlacedBy(job, doc, k, placed)
    ensures placed.room == Some(RowOf(job, doc, k0)) <==> ShownRoom(src, src.devices[s]) == doc[k0].Id()
  {
    hide Run, RowOf, ExportsDocument;
    var p := k;
    if doc[k].ZoneStep? {
      assert WellNested(doc) by { NestedDocument(src, doc); }
      p := ZoneInItsRoom(job, doc, k);
    }
    RowsOfAlike(src, job, doc, p, k0);
  }

  lemma NestedDocument(src: Store, doc: seq<Step>)
    requires ExportsDocument(src, doc)
    ensures WellNested(doc)
  {
  }

  lemma PlacedInZone(src: Store, job: Job, doc: seq<Step>, k: nat, k0: nat, s: Id, placed: Device)
    requires UniqueKeys(src.rooms) && UniqueKeys(src.groups) && job.mode == Merge && ExportsDocument(src, doc)
        && Run(job, doc).Ok?
    requires k < |doc| && k0 < |doc| && doc[k0].ZoneStep? && doc[k0].Id().Some? && ShownAt(src, doc[k], s)
        && PlacedBy(job, doc, k, placed)
    ensures placed.zone == Some(RowOf(job, doc, k0)) <==> Joins(src, OneZone, doc[k0].Id().value, s)
  {
    hide Run, RowOf, ExportsDocument, Alike;
    if doc[k].ZoneStep? {
      RowsOfAlike(src, job, doc, k, k0);
    }
  }

  lemma GroupHolds(src: Store, job: Job, doc: seq<Step>, k0: nat)
    requires UniqueMacs(job.base.devices) && UniqueKeys(src.rooms) && UniqueKeys(src.groups)
    requires ExportsDocument(src, doc) && Run(job, doc).Ok? && k0 < |doc| && doc[k0].GroupStep? && doc[k0].Id().Some?
    ensures
      var i, h, x := RowOf(job, doc, k0), Run(job, doc).value, doc[k0].Id().value;
      i in h.groups && x in src.groups
          && h.groups[i].attrs.members == Carry(src, job.base.devices, src.groups[x].attrs.members)
  {
    hide Run, RowOf, LastInRow, DistinctRows, WellNested;
    var i := RowOf(job, doc, k0);
    EntryIsWritten(job, doc, k0);
    var k := WrittenByEntry(job, doc, GroupKind, i);
    LastRowIs(job, doc, k, i);
    SameRowIsAlike(src, job, doc, k, k0);
    SameEntry(src, doc, k, k0);
    assert ExportsStep(src, doc[k0]);
    MembersAreCarried(src, job.base.devices, doc[k0].group.macs, src.groups[doc[k0].Id().value].attrs.members);
  }

  lemma LastRowIs(job: Job, doc: seq<Step>, k: nat, i: Id)
    requires k < |doc| && Run(job, doc).Ok? && LastInRow(job, doc, k, i)
    ensures RowOf(job, doc, k) == i
  {
    hide Run, RowOf;
  }

  // ---------- What the merged targets address

  /** The parts of a merge of an export of `src` into `dst`. */
  ghost predicate Merges(src: Store, dst: Store, env: Envelope, user: Id, mint: Mint) {
    Valid(src) && Valid(dst) && IsExport(src, env) && Restore(dst, env, Merge, user, mint).Ok?
  }

  lemma MergeParts(src: Store, dst: Store, env: Envelope, user: Id, mint: Mint)
    requires Merges(src, dst, env, user, mint)
    ensures
      var job, doc, after := HierarchyJob(dst, env, Merge, mint), Document(env), After(dst, env, Merge, user, mint);
      && Run(job, doc).Ok? && job.mode == Merge && ExportsDocument(src, doc) && CoversStore(src, doc)
      && SameHardware(dst.devices, job.base.devices)
      && (forall d :: d in dst.devices ==>
          job.base.devices[d].room == dst.devices[d].room && job.base.devices[d].zone == dst.devices[d].zone)
      && after.devices == PlaceAll(job.base.devices, Run(job, doc).value.log)
      && after.groups == Groups(job, Run(job, doc).value)
      && RemapOf(dst, env, Merge, user, mint) == DeviceIds(src, dst.devices) + Run(job, doc).value.remap
  {
    hide Run, Restore, ExportsDocument, CoversStore, LoadSchedules, LoadActions, LoadScenes;
    RestoredParts(dst, env, Merge, user, mint);
    ExportDocument(src, env);
    DocumentCovers(src, env);
    DeviceRemapOfExport(src, dst.devices, env.devices);
  }

  /** Device `d` of `dst` ends in the row of `x`: as a member, by where the export shows it or, when that
      is nowhere, by staying in the row that `x` becomes. */
  ghost predicate EndsIn(src: Store, dst: Store, kind: TargetType, x: Id, y: Id, d: Id) {
    && d in dst.devices
    && var s := if kind.OneGroup? then Local(src.devices, dst.devices[d].mac) else ShownDevice(src, dst.devices[d].mac);
       if s.Some? then Joins(src, kind, x, s.value) else !kind.OneGroup? && Belongs(dst, kind, y, d)
  }

  lemma GroupAfterMerge(src: Store, dst: Store, job: Job, doc: seq<Step>, k0: nat, x: Id, d: Id)
    requires Valid(src) && Valid(dst) && Run(job, doc).Ok? && ExportsDocument(src, doc)
        && SameHardware(dst.devices, job.base.devices)
    requires k0 < |doc| && doc[k0].GroupStep? && doc[k0].Id() == Some(x) && d in dst.devices
    ensures
      var i, groups := RowOf(job, doc, k0), Groups(job, Run(job, doc).value);
      i in groups && (d in groups[i].attrs.members <==>
        Local(src.devices, dst.devices[d].mac).Some?
            && Joins(src, OneGroup, x, Local(src.devices, dst.devices[d].mac).value))
  {
    hide Run, RowOf, ExportsDocument;
    GroupHolds(src, job, doc, k0);
    CarriedMember(src, dst, src.groups[x].attrs.members, d);
  }

  lemma PlaceAfterMerge(src: Store, job: Job, doc: seq<Step>, kind: TargetType, k0: nat, x: Id, was: Device)
    requires Valid(src) && job.mode == Merge && Run(job, doc).Ok? && ExportsDocument(src, doc) && CoversStore(src, doc)
    requires (kind.OneRoom? || kind.OneZone?) && k0 < |doc| && doc[k0].Kind() == KindOf(kind) && doc[k0].Id() == Some(x)
    ensures
      var s, now, y := ShownDevice(src, was.mac), Placed(was, Run(job, doc).value.log), RowOf(job, doc, k0);
      if s.Some? then (if kind.OneRoom? then now.room == Some(y) else now.zone == Some(y)) <==>
          Joins(src, kind, x, s.value)
      else now == was
  {
    hide Run, RowOf, ExportsDocument, CoversStore, ShownAt, PlacedBy, Alike;
    var k := MergedPlace(src, job, doc, was);
    var s := ShownDevice(src, was.mac);
    if s.Some? {
      if kind.OneRoom? {
        PlacedInRoom(src, job, doc, k, k0, s.value, Placed(was, Run(job, doc).value.log));
      } else {
        PlacedInZone(src, job, doc, k, k0, s.value, Placed(was, Run(job, doc).value.log));
      }
    }
  }

  /** After the merge, the row that an exported row becomes holds exactly the devices that end in it. */
  lemma BelongsAfterMerge(src: Store, dst: Store, env: Envelope, user: Id, mint: Mint, kind: TargetType, x: Id, d: Id)
    requires Merges(src, dst, env, user, mint) && Grouping(kind) && OnlyOf(src, KindOf(kind), x) && d in dst.devices
    ensures
      var y := Subst(RemapOf(dst, env, Merge, user, mint), x);
      Belongs(After(dst, env, Merge, user, mint), kind, y, d) <==> EndsIn(src, dst, kind, x, y, d)
  {
    hide Run, RowOf, Restore, ExportsDocument, CoversStore, Joins, ShownDevice, DeviceIds, Alike;
    var job, doc := HierarchyJob(dst, env, Merge, mint), Document(env);
    MergeParts(src, dst, env, user, mint);
    var k0 := EntryFor(src, doc, KindOf(kind), x);
    RemappedToRow(src, job, doc, k0, x);
    if kind.OneGroup? {
      GroupAfterMerge(src, dst, job, doc, k0, x, d);
    } else {
      PlaceAfterMerge(src, job, doc, kind, k0, x, job.base.devices[d]);
    }
  }

  /** After the merge, an exported room, zone or group is the local row of its name or, if there was none,
      one under its own id. */
  lemma MergedRow(src: Store, dst: Store, env: Envelope, user: Id, mint: Mint, kind: Kind, x: Id)
    requires Merges(src, dst, env, user, mint) && UniqueZones(src) && OnlyOf(src, kind, x)
    ensures Subst(RemapOf(dst, env, Merge, user, mint), x) == SeatOf(src, dst, kind, x)
  {
    hide Run, RowOf, Restore, ExportsDocument, CoversStore, AllHaveTargets, Free, UniqueZones, SeatOf, AllInPlace;
    var job, doc := HierarchyJob(dst, env, Merge, mint), Document(env);
    MergeParts(src, dst, env, user, mint);
    MergeSucceedsIffCompatible(src, dst, env, user, mint);
    SeatedZonesUnique(src, dst);
    DestinationReady(src, dst, env, mint);
    var k := EntryFor(src, doc, kind, x);
    RowIsSeat(src, dst, job, doc, k);
    RemappedToRow(src, job, doc, k, x);
  }

  lemma AddressedExactly(src: Store, dst: Store, after: Store, t: Target, x: Id, y: Id)
    requires UniqueMacs(dst.devices) && SameHardware(dst.devices, after.devices) && Grouping(t.kind) && t.id == Some(y)
        && y != ""
    requires forall d :: d in dst.devices ==> (Belongs(after, t.kind, y, d) <==> EndsIn(src, dst, t.kind, x, y, d))
    ensures Addressed(after, t) == set d | d in dst.devices && EndsIn(src, dst, t.kind, x, y, d) :: dst.devices[d].mac
  {
    hide EndsIn, Belongs;
    forall d | d in dst.devices
      ensures dst.devices[d].mac in Addressed(after, t) <==> EndsIn(src, dst, t.kind, x, y, d)
    {
      GroupedHere(dst, after, t, d);
    }
    assert Addressed(after, t) <= AllMacs(dst);
  }

  lemma RowIsProper(src: Store, job: Job, doc: seq<Step>, k: nat)
    requires Valid(src) && Run(job, doc).Ok? && ExportsDocument(src, doc) && k < |doc|
    requires "" !in job.base.rooms && "" !in job.base.zones && "" !in job.base.groups
    ensures RowOf(job, doc, k) != ""
  {
    hide Run, RowOf, ExportsDocument;
    forall j: nat | j < |doc| ensures Truthy(doc[j].Id()) {
      EntryIsShown(src, doc, j);
    }
    RunIdsProper(job, doc);
    EntryIsWritten(job, doc, k);
  }

  lemma MergedStore(src: Store, dst: Store, env: Envelope, user: Id, mint: Mint, kind: Kind, x: Id)
    requires Merges(src, dst, env, user, mint) && OnlyOf(src, kind, x)
    ensures UniqueMacs(dst.devices) && SameHardware(dst.devices, After(dst, env, Merge, user, mint).devices)
    ensures x != "" && Subst(RemapOf(dst, env, Merge, user, mint), x) != ""
  {
    hide Run, RowOf, Restore, ExportsDocument, CoversStore;
    var job, doc := HierarchyJob(dst, env, Merge, mint), Document(env);
    MergeParts(src, dst, env, user, mint);
    var k0 := EntryFor(src, doc, kind, x);
    RemappedToRow(src, job, doc, k0, x);
    RowIsProper(src, job, doc, k0);
  }

  /** What a room, zone or group target addresses after a merge: the devices that end in its row. */
  lemma MergedTarget(src: Store, dst: Store, env: Envelope, user: Id, mint: Mint, t: Target)
    requires Merges(src, dst, env, user, mint) && Grouping(t.kind) && t.id.Some?
        && OnlyOf(src, KindOf(t.kind), t.id.value)
    ensures
      var after, remap := After(dst, env, Merge, user, mint), RemapOf(dst, env, Merge, user, mint);
      var y := Subst(remap, t.id.value);
      Addressed(after, RemapTarget(remap, t)) == set d | d in dst.devices
          && EndsIn(src, dst, t.kind, t.id.value, y, d) :: dst.devices[d].mac
  {
    hide Restore, EndsIn, Belongs, Addressed, OnlyOf;
    var after, remap := After(dst, env, Merge, user, mint), RemapOf(dst, env, Merge, user, mint);
    var x, y := t.id.value, Subst(remap, t.id.value);
    MergedStore(src, dst, env, user, mint, KindOf(t.kind), x);
    forall d | d in dst.devices
      ensures Belongs(after, t.kind, y, d) <==> EndsIn(src, dst, t.kind, x, y, d)
    {
      BelongsAfterMerge(src, dst, env, user, mint, t.kind, x, d);
    }
    AddressedExactly(src, dst, after, RemapTarget(remap, t), x, y);
  }

  /** The devices of `dst` that the export does not show and that stay in the row `y` they were in. */
  ghost function Staying(src: Store, dst: Store, kind: TargetType, y: Id): set<Mac> {
    set d | d in dst.devices && !kind.OneGroup? && ShownDevice(src, dst.devices[d].mac).None?
        && Belongs(dst, kind, y, d) :: dst.devices[d].mac
  }

  lemma JoinsIsBelongs(src: Store, kind: TargetType, x: Id, s: Id)
    requires WellPlaced(src) && UniqueZones(src) && Grouping(kind) && (kind.OneZone? ==> x in ShownIds(src, ZoneKind))
    ensures Joins(src, kind, x, s) <==> Belongs(src, kind, x, s)
  {
  }

  lemma UnshownBelongsNowhere(src: Store, kind: TargetType, x: Id, s: Id)
    requires WellPlaced(src) && s in src.devices && ShownRoom(src, src.devices[s]).None? && !kind.OneGroup?
    ensures !Belongs(src, kind, x, s)
  {
  }

  lemma EndsInSound(src: Store, dst: Store, t: Target, x: Id, y: Id, d: Id)
    requires Valid(src) && WellPlaced(src) && UniqueZones(src) && Grouping(t.kind) && d in dst.devices
    requires t.id == Some(x) && x != "" && (t.kind.OneZone? ==> x in ShownIds(src, ZoneKind))
    ensures EndsIn(src, dst, t.kind, x, y, d) <==>
              dst.devices[d].mac in Addressed(src, t) ||
              (!t.kind.OneGroup? && ShownDevice(src, dst.devices[d].mac).None? && Belongs(dst, t.kind, y, d))
  {
    hide WellPlaced, UniqueZones, Joins, Belongs;
    GroupedThere(src, dst, t, d);
    var s := Local(src.devices, dst.devices[d].mac);
    if s.Some? {
      JoinsIsBelongs(src, t.kind, x, s.value);
      if ShownRoom(src, src.devices[s.value]).None? && !t.kind.OneGroup? {
        UnshownBelongsNowhere(src, t.kind, x, s.value);
      }
    }
  }

  /** After merging an export of a sound store into another installation, a group target addresses exactly
      the devices it addressed that are here. A room or zone target addresses those, and the devices the
      export does not show that were already in the row it now names. */
  lemma MergedTargetOfSound(src: Store, dst: Store, env: Envelope, user: Id, mint: Mint, t: Target)
    requires Merges(src, dst, env, user, mint) && WellPlaced(src) && UniqueZones(src)
    requires Grouping(t.kind) && t.id.Some? && OnlyOf(src, KindOf(t.kind), t.id.value)
    ensures
      var after, remap := After(dst, env, Merge, user, mint), RemapOf(dst, env, Merge, user, mint);
      Addressed(after, RemapTarget(remap, t)) ==
        Addressed(src, t) * AllMacs(dst) + Staying(src, dst, t.kind, Subst(remap, t.id.value))
  {
    hide Restore, EndsIn, Belongs, Addressed, WellPlaced, UniqueZones;
    var x, y := t.id.value, Subst(RemapOf(dst, env, Merge, user, mint), t.id.value);
    MergedTarget(src, dst, env, user, mint, t);
    MergedStore(src, dst, env, user, mint, KindOf(t.kind), x);
    forall d | d in dst.devices
      ensures EndsIn(src, dst, t.kind, x, y, d) <==>
                dst.devices[d].mac in Addressed(src, t) ||
                (!t.kind.OneGroup? && ShownDevice(src, dst.devices[d].mac).None? && Belongs(dst, t.kind, y, d))
    {
      EndsInSound(src, dst, t, x, y, d);
    }
    SplitMacs(src, dst, t, x, y);
  }

  lemma SplitMacs(src: Store, dst: Store, t: Target, x: Id, y: Id)
    requires forall d :: d in dst.devices ==>
      (EndsIn(src, dst, t.kind, x, y, d) <==>
        dst.devices[d].mac in Addressed(src, t) ||
        (!t.kind.OneGroup? && ShownDevice(src, dst.devices[d].mac).None? && Belongs(dst, t.kind, y, d)))
    ensures (set d | d in dst.devices && EndsIn(src, dst, t.kind, x, y, d) :: dst.devices[d].mac) ==
              Addressed(src, t) * AllMacs(dst) + Staying(src, dst, t.kind, y)
  {
    hide EndsIn, Belongs, Addressed;
  }

  // ---------- Device targets and exclusions

  /** None of the target's device ids is also the id of an exported room, zone or group. */
  ghost predicate NoSharedIds(src: Store, t: Target) {
    match t.kind
    case OneDevice => Truthy(t.id) ==> t.id.value !in HierarchyIds(src)
    case AllExcept => forall x :: x in OrElse(t.excludes, []) ==> x !in HierarchyIds(src)
    case _ => true
  }

  lemma MergedIdLands(src: Store, dst: Store, env: Envelope, user: Id, mint: Mint, x: Id)
    requires Merges(src, dst, env, user, mint) && x !in HierarchyIds(src)
    ensures Subst(RemapOf(dst, env, Merge, user, mint), x) == Lands(src, dst, x)
  {
    hide Run, Restore, ExportsDocument, CoversStore;
    MergeParts(src, dst, env, user, mint);
    OnlyShownAreRemapped(src, HierarchyJob(dst, env, Merge, mint), Document(env), x);
  }

  lemma SameImage(src: Store, dst: Store, remap: map<Id, Id>, t: Target)
    requires forall x :: x in OrElse(t.excludes, []) ==> Subst(remap, x) == Lands(src, dst, x)
    ensures Image(remap, t.excludes) == Image(ExportRemap(src, dst.devices), t.excludes)
  {
    hide Lands;
    forall x ensures Subst(ExportRemap(src, dst.devices), x) == Lands(src, dst, x) {
      SubstLands(src, dst, x);
    }
  }

  /** Device, all and all_except targets behave in a merge as in a replace. */
  lemma MergedDeviceTarget(src: Store, dst: Store, env: Envelope, user: Id, mint: Mint, t: Target)
    requires Merges(src, dst, env, user, mint) && !Grouping(t.kind) && NoSharedIds(src, t)
    ensures Means(src, dst, After(dst, env, Merge, user, mint), RemapOf(dst, env, Merge, user, mint), t) <==>
        Keeps(src, dst, t)
  {
    hide Restore, Means, Lands, SameExcludes, Image;
    var after, remap := After(dst, env, Merge, user, mint), RemapOf(dst, env, Merge, user, mint);
    MergedHardware(src, dst, env, user, mint);
    match t.kind
    case All => AllMeans(src, dst, after, remap, t);
    case OneDevice =>
      if Truthy(t.id) {
        MergedIdLands(src, dst, env, user, mint, t.id.value);
        DeviceMeans(src, dst, after, remap, t);
        DeviceKeeps(src, dst, t);
      } else {
        NothingNamed(src, dst, after, remap, t);
      }
    case AllExcept =>
      forall x | x in OrElse(t.excludes, []) ensures Subst(remap, x) == Lands(src, dst, x) {
        MergedIdLands(src, dst, env, user, mint, x);
      }
      ExceptMeans(src, dst, after, remap, t);
      SameImage(src, dst, remap, t);
      SameExcludesOf(src, dst, remap, ExportRemap(src, dst.devices), t);
      ExceptKeeps(src, dst, t);
  }

  lemma SameExcludesOf(src: Store, dst: Store, a: map<Id, Id>, b: map<Id, Id>, t: Target)
    requires Image(a, t.excludes) == Image(b, t.excludes)
    ensures SameExcludes(src, dst, a, t) <==> SameExcludes(src, dst, b, t)
  {
  }

  lemma DeviceKeeps(src: Store, dst: Store, t: Target)
    requires t.kind == OneDevice && Truthy(t.id)
    ensures SameDevice(src, dst, t.id.value, Lands(src, dst, t.id.value)) <==> Keeps(src, dst, t)
  {
  }

  lemma MergedHardware(src: Store, dst: Store, env: Envelope, user: Id, mint: Mint)
    requires Merges(src, dst, env, user, mint)
    ensures SameHardware(dst.devices, After(dst, env, Merge, user, mint).devices) && UniqueMacs(dst.devices)
    ensures "" !in src.devices && "" !in dst.devices
  {
    hide Run, Restore, ExportsDocument, CoversStore;
    MergeParts(src, dst, env, user, mint);
  }

  // ---------- The targets stored by a merge

  ghost predicate RemappedTargets(remap: map<Id, Id>, was: seq<Target>, now: seq<Target>) {
    |now| == |was| && forall k :: 0 <= k < |was| ==> now[k] == RemapTarget(remap, was[k])
  }

  lemma SubstitutedOut(remap: map<Id, Id>, was: seq<Target>, now: seq<Target>)
    requires Substituted(remap, TargetsOut(was), now)
    ensures RemappedTargets(remap, was, now)
  {
    forall k | 0 <= k < |was| ensures now[k] == RemapTarget(remap, was[k]) {
      assert TargetsOut(was)[k] == TargetOut(was[k]);
      assert ParseTargetType(TargetTypeName(now[k].kind)) == Some(now[k].kind);
    }
  }

  lemma ExportedScheduleItem(src: Store, items: seq<ScheduleItem>, remap: map<Id, Id>, k: nat, i: Id, row: Schedule)
    requires ExportsSchedules(src, items) && k < |items| && items[k].id == Some(i) && ScheduleAs(remap, items[k], row)
    ensures i in src.schedules && RemappedTargets(remap, src.schedules[i].view.targets, row.targets)
  {
    hide Substituted, TriggersAs, RemappedTargets;
    SubstitutedOut(remap, src.schedules[i].view.targets, row.targets);
  }

  lemma ScheduleOfItem(src: Store, items: seq<ScheduleItem>, remap: map<Id, Id>, mint: nat -> Id, i: Id, row: Schedule)
    requires "" !in src.schedules && ExportsSchedules(src, items) && FromSchedule(remap, items, mint, i, row)
    ensures i in src.schedules && RemappedTargets(remap, src.schedules[i].view.targets, row.targets)
  {
    var k: nat :| k < |items| && LastInSlot(ScheduleEntries(remap, items), mint, k, i)
        && ScheduleAs(remap, items[k], row);
    hide ScheduleAs, RemappedTargets, FromSchedule;
    assert items[k].id == Some(i);
    ExportedScheduleItem(src, items, remap, k, i, row);
  }

  lemma ExportedScheduleRow(src: Store, items: seq<ScheduleItem>, remap: map<Id, Id>, kept: map<Id, Owned<Schedule>>,
                          mint: nat -> Id, after: map<Id, Owned<Schedule>>, i: Id)
    requires "" !in src.schedules && ExportsSchedules(src, items) && i in src.schedules
    requires SchedulesOf(remap, items, kept, mint, after)
    ensures i in after && RemappedTargets(remap, src.schedules[i].view.targets, after[i].view.targets)
  {
    hide FromSchedule, RemappedTargets;
    var j: nat :| j < |items| && items[j].id == Some(i);
    assert SlotOf(items[j].id, mint(j)) == i;
    assert Slot(ScheduleEntries(remap, items)[j], mint(j)) == i;
    ScheduleOfItem(src, items, remap, mint, i, after[i].view);
  }

  lemma ExportedActionItem(src: Store, items: seq<ActionItem>, remap: map<Id, Id>, k: nat, i: Id, row: QuickAction)
    requires ExportsActions(src, items) && k < |items| && items[k].id == Some(i) && ActionAs(remap, items[k], row)
    ensures i in src.actions && RemappedTargets(remap, src.actions[i].view.targets, row.targets)
  {
    hide Substituted, TriggersAs, RemappedTargets;
    SubstitutedOut(remap, src.actions[i].view.targets, row.targets);
  }

  lemma ActionOfItem(src: Store, items: seq<ActionItem>, remap: map<Id, Id>, mint: nat -> Id, i: Id, row: QuickAction)
    requires "" !in src.actions && ExportsActions(src, items) && FromAction(remap, items, mint, i, row)
    ensures i in src.actions && RemappedTargets(remap, src.actions[i].view.targets, row.targets)
  {
    var k: nat :| k < |items| && LastInSlot(ActionEntries(remap, items), mint, k, i) && ActionAs(remap, items[k], row);
    hide ActionAs, RemappedTargets, FromAction;
    assert items[k].id == Some(i);
    ExportedActionItem(src, items, remap, k, i, row);
  }

  lemma ExportedActionRow(src: Store, items: seq<ActionItem>, remap: map<Id, Id>, kept: map<Id, Owned<QuickAction>>,
                          mint: nat -> Id, after: map<Id, Owned<QuickAction>>, i: Id)
    requires "" !in src.actions && ExportsActions(src, items) && i in src.actions
    requires ActionsOf(remap, items, kept, mint, after)
    ensures i in after && RemappedTargets(remap, src.actions[i].view.targets, after[i].view.targets)
  {
    hide FromAction, RemappedTargets;
    var j: nat :| j < |items| && items[j].id == Some(i);
    assert SlotOf(items[j].id, mint(j)) == i;
    assert Slot(ActionEntries(remap, items)[j], mint(j)) == i;
    ActionOfItem(src, items, remap, mint, i, after[i].view);
  }

  /** Every schedule and quick action of the exported store is there after the merge, with its targets
      rewritten by the remap: the targets of the theorems above. */
  lemma MergedStoredTargets(src: Store, dst: Store, env: Envelope, user: Id, mint: Mint, i: Id)
    requires Merges(src, dst, env, user, mint)
    ensures
      var after, remap := After(dst, env, Merge, user, mint), RemapOf(dst, env, Merge, user, mint);
      && (i in src.schedules ==>
            i in after.schedules &&
            RemappedTargets(remap, src.schedules[i].view.targets, after.schedules[i].view.targets))
      && (i in src.actions ==>
            i in after.actions && RemappedTargets(remap, src.actions[i].view.targets, after.actions[i].view.targets))
  {
    hide Restore, RemappedTargets, SchedulesOf, ActionsOf;
    var after, remap := After(dst, env, Merge, user, mint), RemapOf(dst, env, Merge, user, mint);
    SchedulesAreSubstituted(dst, env, Merge, user, mint);
    ActionsAreSubstituted(dst, env, Merge, user, mint);
    if i in src.schedules {
      ExportedScheduleRow(src, env.schedules, remap, dst.schedules, mint.schedules, after.schedules, i);
    }
    if i in src.actions {
      ExportedActionRow(src, env.actions, remap, dst.actions, mint.actions, after.actions, i);
    }
  }
}
