/** A merge import of a hierarchy that is run a second time takes the very same steps. */
module HierarchyRerun {
  import opened Prelude
  import opened Stores
  import opened Envelopes
  import opened Hierarchy

  /** A key that names exactly one row keeps naming that row. */
  ghost predicate Settled<K(!new), A(!new)>(a: map<Id, Keyed<K, A>>, b: map<Id, Keyed<K, A>>) {
    forall key, i :: i in a && Hits(a, key) == {i} ==> Hits(b, key) == {i}
  }

  lemma RowForSettles<K(!new), A(!new)>(table: map<Id, Keyed<K, A>>, id: Option<Id>, key: K, unique: bool, drawn: Id,
                                        attrs: A)
    requires RowFor(table, Merge, id, key, unique, drawn).Ok?
    ensures Settled(table, table[RowFor(table, Merge, id, key, unique, drawn).value := Keyed(key, attrs)])
  {
    var i := RowFor(table, Merge, id, key, unique, drawn).value;
    var after := table[i := Keyed(key, attrs)];
    forall k, j | j in table && Hits(table, k) == {j}
      ensures Hits(after, k) == {j}
    {
      assert j in Hits(table, k);
    }
  }

  ghost predicate AllSettled(job: Job, a: Hier, b: Hier) {
    && Settled(Rooms(job, a), Rooms(job, b))
    && Settled(Zones(job, a), Zones(job, b))
    && Settled(Groups(job, a), Groups(job, b))
  }

  lemma ApplySettles(job: Job, h: Hier, s: Step, n: nat)
    requires job.mode == Merge && Apply(job, h, s, n).Ok?
    ensures AllSettled(job, h, Apply(job, h, s, n).value)
  {
    var after := Apply(job, h, s, n).value;
    match s
    case RoomStep(r) =>
      var i := RowFor(Rooms(job, h), Merge, r.id, r.name.value, true, job.mint(n)).value;
      OverlayUpdate(job.base.rooms, h.rooms, i, after.rooms[i]);
      RowForSettles(Rooms(job, h), r.id, r.name.value, true, job.mint(n), after.rooms[i].attrs);
    case ZoneStep(_, z) =>
      var key := ZoneKey(z.name.value, h.cur);
      var i := RowFor(Zones(job, h), Merge, z.id, key, false, job.mint(n)).value;
      OverlayUpdate(job.base.zones, h.zones, i, after.zones[i]);
      RowForSettles(Zones(job, h), z.id, key, false, job.mint(n), after.zones[i].attrs);
    case GroupStep(g) =>
      var i := RowFor(Groups(job, h), Merge, g.id, g.name.value, true, job.mint(n)).value;
      OverlayUpdate(job.base.groups, h.groups, i, after.groups[i]);
      RowForSettles(Groups(job, h), g.id, g.name.value, true, job.mint(n), after.groups[i].attrs);
  }

  lemma SettledTransitive<K(!new), A(!new)>(a: map<Id, Keyed<K, A>>, b: map<Id, Keyed<K, A>>, c: map<Id, Keyed<K, A>>)
    requires Settled(a, b) && Settled(b, c)
    ensures Settled(a, c)
  {
    forall key, i | i in a && Hits(a, key) == {i}
      ensures Hits(c, key) == {i}
    {
      assert i in Hits(b, key);
    }
  }

  lemma {:induction false} RunSettles(job: Job, doc: seq<Step>, k: nat)
    requires job.mode == Merge && k <= |doc| && Run(job, doc).Ok?
    ensures Run(job, doc[..k]).Ok? && AllSettled(job, Run(job, doc[..k]).value, Run(job, doc).value)
    decreases |doc|
  {
    hide Apply;
    RunPrefix(job, doc, k);
    if k == |doc| {
      assert doc[..k] == doc;
    } else {
      var n := |doc| - 1;
      assert doc[..n][..k] == doc[..k];
      RunSettles(job, doc[..n], k);
      var a, b, c := Run(job, doc[..k]).value, Run(job, doc[..n]).value, Run(job, doc).value;
      ApplySettles(job, b, doc[n], n);
      SettledTransitive(Rooms(job, a), Rooms(job, b), Rooms(job, c));
      SettledTransitive(Zones(job, a), Zones(job, b), Zones(job, c));
      SettledTransitive(Groups(job, a), Groups(job, b), Groups(job, c));
    }
  }

  /** `later` starts from the tables an import left behind, on the same hardware. */
  ghost predicate Follows(job: Job, h: Hier, later: Job) {
    && job.mode == Merge && later.mode == Merge
    && later.base.rooms == Rooms(job, h)
    && later.base.zones == Zones(job, h)
    && later.base.groups == Groups(job, h)
    && UniqueMacs(job.base.devices)
    && SameHardware(job.base.devices, later.base.devices)
  }

  /** The row found the first time is the one found again: `full` holds the finished table, `part`
      the writes made before this item in the second run. */
  lemma FoundAgain<K(!new), A(!new)>(table: map<Id, Keyed<K, A>>, id: Option<Id>, key: K, unique: bool, drawn: Id,
                                     attrs: A,
                         full: map<Id, Keyed<K, A>>, part: map<Id, Keyed<K, A>>, redrawn: Id)
    requires RowFor(table, Merge, id, key, unique, drawn).Ok?
    requires Settled(table[RowFor(table, Merge, id, key, unique, drawn).value := Keyed(key, attrs)], full)
    requires forall i :: i in part ==> i in full && part[i].key == full[i].key
    ensures RowFor(full + part, Merge, id, key, unique, redrawn) == RowFor(table, Merge, id, key, unique, drawn)
  {
    var i := RowFor(table, Merge, id, key, unique, drawn).value;
    assert Hits(table[i := Keyed(key, attrs)], key) == {i};
    assert i in Hits(full, key);
    assert Hits(full + part, key) == Hits(full, key);
  }

  lemma MembersOfSameHardware(a: map<Id, Device>, b: map<Id, Device>, macs: seq<Mac>)
    requires UniqueMacs(a) && SameHardware(a, b)
    ensures Members(a, macs) == Members(b, macs) && (Repeats(a, macs) <==> Repeats(b, macs))
  {
    forall mac ensures Local(a, mac) == Local(b, mac) {
      LocalOfSameHardware(a, b, mac);
    }
  }

  lemma SameStepAgain(job: Job, later: Job, doc: seq<Step>, k: nat)
    requires k < |doc| && Run(job, doc).Ok? && Run(job, doc[..k]).Ok?
    requires Follows(job, Run(job, doc).value, later)
    ensures Apply(later, Run(job, doc[..k]).value, doc[k], k) == Run(job, doc[..k + 1])
  {
    var h, end := Run(job, doc[..k]).value, Run(job, doc).value;
    RunStep(job, doc, k);
    RunSettles(job, doc, k + 1);
    RunExtends(job, doc, k);
    var next := Run(job, doc[..k + 1]).value;
    match doc[k]
    case RoomStep(r) =>
      var i := RowFor(Rooms(job, h), Merge, r.id, r.name.value, true, job.mint(k)).value;
      OverlayUpdate(job.base.rooms, h.rooms, i, next.rooms[i]);
      FoundAgain(Rooms(job, h), r.id, r.name.value, true, job.mint(k), next.rooms[i].attrs,
                 later.base.rooms, h.rooms, later.mint(k));
    case ZoneStep(_, z) =>
      var key := ZoneKey(z.name.value, h.cur);
      var i := RowFor(Zones(job, h), Merge, z.id, key, false, job.mint(k)).value;
      OverlayUpdate(job.base.zones, h.zones, i, next.zones[i]);
      FoundAgain(Zones(job, h), z.id, key, false, job.mint(k), next.zones[i].attrs,
                 later.base.zones, h.zones, later.mint(k));
    case GroupStep(g) =>
      var i := RowFor(Groups(job, h), Merge, g.id, g.name.value, true, job.mint(k)).value;
      OverlayUpdate(job.base.groups, h.groups, i, next.groups[i]);
      FoundAgain(Groups(job, h), g.id, g.name.value, true, job.mint(k), next.groups[i].attrs,
                 later.base.groups, h.groups, later.mint(k));
      MembersOfSameHardware(job.base.devices, later.base.devices, g.macs);
  }

  /** The second run writes the same rows, the same remap and the same placements as the first,
      whatever ids it would draw. */
  lemma {:induction false} SecondRun(job: Job, later: Job, doc: seq<Step>, k: nat)
    requires k <= |doc| && Run(job, doc).Ok?
    requires Follows(job, Run(job, doc).value, later)
    ensures Run(job, doc[..k]).Ok? && Run(later, doc[..k]) == Run(job, doc[..k])
    decreases k
  {
    RunPrefix(job, doc, k);
    if k > 0 {
      SecondRun(job, later, doc, k - 1);
      SameStepAgain(job, later, doc, k - 1);
      RunStep(later, doc, k - 1);
    }
  }

  /** Placing a device twice by the same log is placing it once. */
  lemma {:induction false} PlacedTwice(d: Device, log: seq<Mention>)
    ensures Placed(Placed(d, log), log) == Placed(d, log)
    decreases |log|
  {
    if log != [] {
      PlacedTwice(d, log[..|log| - 1]);
    }
  }
}
