/** What a hierarchy import does to ids and to devices: each backup id, and each device, follows its last mention. */
module HierarchyFacts {
  import opened Prelude
  import opened Stores
  import opened Envelopes
  import opened Hierarchy

  // ---------- The rows that document entries end up in

  /** The row in which a step is stored. */
  ghost function StepRow(job: Job, h: Hier, s: Step, n: nat): Id
    requires Apply(job, h, s, n).Ok?
  {
    match s
    case RoomStep(r) => RowFor(Rooms(job, h), job.mode, r.id, r.name.value, true, job.mint(n)).value
    case ZoneStep(_, z) => RowFor(Zones(job, h), job.mode, z.id, ZoneKey(z.name.value, h.cur), false, job.mint(n)).value
    case GroupStep(g) => RowFor(Groups(job, h), job.mode, g.id, g.name.value, true, job.mint(n)).value
  }

  /** The row in which the document's `k`-th entry is stored. */
  ghost function RowOf(job: Job, doc: seq<Step>, k: nat): Id
    requires k < |doc| && Run(job, doc).Ok?
  {
    RunPrefix(job, doc, k);
    RunPrefix(job, doc, k + 1);
    RunStep(job, doc, k);
    StepRow(job, Run(job, doc[..k]).value, doc[k], k)
  }

  /** The placements a step makes. */
  ghost function StepMentions(job: Job, h: Hier, s: Step, n: nat): seq<Mention>
    requires Apply(job, h, s, n).Ok?
  {
    match s
    case RoomStep(_) => Mentions(s.Macs(), StepRow(job, h, s, n), None)
    case ZoneStep(_, _) => Mentions(s.Macs(), h.cur, Some(StepRow(job, h, s, n)))
    case GroupStep(_) => []
  }

  /** What one step adds to the remap and to the placements. */
  lemma ApplyNotes(job: Job, h: Hier, s: Step, n: nat)
    requires Apply(job, h, s, n).Ok?
    ensures
      var next, row := Apply(job, h, s, n).value, StepRow(job, h, s, n);
      && next.remap == Note(h.remap, s.Id(), row)
      && next.log == h.log + StepMentions(job, h, s, n)
      && (s.ZoneStep? ==> row in Zones(job, next) && Zones(job, next)[row].key.room == h.cur)
  {
  }

  lemma RowOfPrefix(job: Job, doc: seq<Step>, n: nat, k: nat)
    requires k < n <= |doc| && Run(job, doc).Ok?
    ensures Run(job, doc[..n]).Ok? && RowOf(job, doc[..n], k) == RowOf(job, doc, k)
  {
    RunPrefix(job, doc, n);
    assert doc[..n][..k] == doc[..k];
  }

  ghost predicate InRoom(s: Step, r: RoomItem) {
    s == RoomStep(r) || (s.ZoneStep? && s.parent == r)
  }

  /** Every zone entry comes right after its room's entry or after another zone of that room. */
  ghost predicate WellNested(doc: seq<Step>) {
    forall k :: 0 <= k < |doc| && doc[k].ZoneStep? ==> k > 0 && InRoom(doc[k - 1], doc[k].parent)
  }

  /** `i` is a row of the kind, and with the name, that the entry asks for. */
  ghost predicate Names(job: Job, h: Hier, s: Step, i: Id)
    decreases s.ZoneStep?
  {
    && s.Name().Some?
    && match s
       case RoomStep(_) => i in Rooms(job, h) && Rooms(job, h)[i].key == s.Name().value
       case GroupStep(_) => i in Groups(job, h) && Groups(job, h)[i].key == s.Name().value
       case ZoneStep(p, _) =>
         && i in Zones(job, h) && Zones(job, h)[i].key.name == s.Name().value
         && Names(job, h, RoomStep(p), Zones(job, h)[i].key.room)
  }

  lemma NamesLater(job: Job, a: Hier, b: Hier, s: Step, i: Id)
    requires Extends(job, a, b) && Names(job, a, s, i)
    ensures Names(job, b, s, i)
  {
  }

  /** After an entry of a room, the current row is that room's row. */
  lemma {:induction false} CurrentRoom(job: Job, doc: seq<Step>, p: RoomItem)
    requires Run(job, doc).Ok? && WellNested(doc) && doc != [] && InRoom(doc[|doc| - 1], p)
    ensures Names(job, Run(job, doc).value, RoomStep(p), Run(job, doc).value.cur)
    decreases |doc|
  {
    var n := |doc| - 1;
    var h := Run(job, doc[..n]).value;
    if doc[n].ZoneStep? {
      CurrentRoom(job, doc[..n], p);
      ApplyExtends(job, h, doc[n], n);
      NamesLater(job, h, Run(job, doc).value, RoomStep(p), h.cur);
    }
  }

  /** The row an entry is stored in has the entry's kind and name when the import ends, and a zone's
      row lies in the row of the room it is listed under. */
  lemma RowOfNames(job: Job, doc: seq<Step>, k: nat)
    requires k < |doc| && Run(job, doc).Ok? && WellNested(doc)
    ensures Names(job, Run(job, doc).value, doc[k], RowOf(job, doc, k))
  {
    RunExtends(job, doc, k);
    RunExtends(job, doc, k + 1);
    RunStep(job, doc, k);
    var h, next := Run(job, doc[..k]).value, Run(job, doc[..k + 1]).value;
    if doc[k].ZoneStep? {
      assert doc[..k][k - 1] == doc[k - 1];
      CurrentRoom(job, doc[..k], doc[k].parent);
      ApplyExtends(job, h, doc[k], k);
    }
    assert Names(job, next, doc[k], RowOf(job, doc, k));
    NamesLater(job, next, Run(job, doc).value, doc[k], RowOf(job, doc, k));
  }

  /** Room names and group names stay unique. */
  lemma {:induction false} RunKeepsUnique(job: Job, doc: seq<Step>)
    requires Run(job, doc).Ok? && UniqueKeys(job.base.rooms) && UniqueKeys(job.base.groups)
    ensures UniqueKeys(Rooms(job, Run(job, doc).value)) && UniqueKeys(Groups(job, Run(job, doc).value))
    decreases |doc|
  {
    if doc == [] {
      assert Rooms(job, EMPTY) == job.base.rooms && Groups(job, EMPTY) == job.base.groups;
    } else {
      var n := |doc| - 1;
      RunKeepsUnique(job, doc[..n]);
      ApplyKeepsUnique(job, Run(job, doc[..n]).value, doc[n], n);
    }
  }

  lemma ApplyKeepsUnique(job: Job, h: Hier, s: Step, n: nat)
    requires Apply(job, h, s, n).Ok? && UniqueKeys(Rooms(job, h)) && UniqueKeys(Groups(job, h))
    ensures UniqueKeys(Rooms(job, Apply(job, h, s, n).value)) && UniqueKeys(Groups(job, Apply(job, h, s, n).value))
  {
    var next := Apply(job, h, s, n).value;
    match s
    case RoomStep(r) =>
      var i := StepRow(job, h, s, n);
      OverlayUpdate(job.base.rooms, h.rooms, i, next.rooms[i]);
      RowForKeepsKeys(Rooms(job, h), job.mode, r.id, r.name.value, true, job.mint(n), next.rooms[i].attrs);
    case ZoneStep(_, _) =>
    case GroupStep(g) =>
      var i := StepRow(job, h, s, n);
      OverlayUpdate(job.base.groups, h.groups, i, next.groups[i]);
      RowForKeepsKeys(Groups(job, h), job.mode, g.id, g.name.value, true, job.mint(n), next.groups[i].attrs);
  }

  // ---------- The id remap

  ghost predicate LastWithId(doc: seq<Step>, k: nat, x: Id) {
    && k < |doc| && doc[k].Id() == Some(x) && x != ""
    && forall j :: k < j < |doc| ==> doc[j].Id() != Some(x)
  }

  /** A backup id is remapped to the row of the last entry that carries it. */
  lemma {:induction false} RemapFollowsLast(job: Job, doc: seq<Step>, k: nat, x: Id)
    requires Run(job, doc).Ok? && LastWithId(doc, k, x)
    ensures x in Run(job, doc).value.remap && Run(job, doc).value.remap[x] == RowOf(job, doc, k)
    decreases |doc|
  {
    var n := |doc| - 1;
    ApplyNotes(job, Run(job, doc[..n]).value, doc[n], n);
    if k < n {
      assert forall j :: k < j < n ==> doc[..n][j] == doc[j];
      RemapFollowsLast(job, doc[..n], k, x);
      RowOfPrefix(job, doc, n, k);
      assert doc[n].Id() != Some(x);
    }
  }

  /** Only ids that the document carries are remapped. */
  lemma {:induction false} RemapComesFromDocument(job: Job, doc: seq<Step>, x: Id) returns (k: nat)
    requires Run(job, doc).Ok? && x in Run(job, doc).value.remap
    ensures LastWithId(doc, k, x)
    decreases |doc|
  {
    hide Apply;
    var n := |doc| - 1;
    ApplyNotes(job, Run(job, doc[..n]).value, doc[n], n);
    if doc[n].Id() == Some(x) && x != "" {
      k := n;
    } else {
      k := RemapComesFromDocument(job, doc[..n], x);
      assert forall j :: k < j < n ==> doc[..n][j] == doc[j];
    }
  }

  // ---------- Device placement

  /** The placement that an entry stored in `row` gives to the devices it lists. */
  ghost predicate PlacedIn(job: Job, h: Hier, s: Step, row: Id, d: Device) {
    match s
    case RoomStep(_) => d.room == Some(row) && d.zone == None
    case ZoneStep(_, _) => d.zone == Some(row) && row in Zones(job, h) && d.room == Some(Zones(job, h)[row].key.room)
    case GroupStep(_) => false
  }

  /** The placement that the document's `k`-th entry gives. */
  ghost predicate PlacedBy(job: Job, doc: seq<Step>, k: nat, d: Device)
    requires k < |doc| && Run(job, doc).Ok?
  {
    PlacedIn(job, Run(job, doc).value, doc[k], RowOf(job, doc, k), d)
  }

  ghost predicate LastMentions(doc: seq<Step>, k: nat, mac: Mac) {
    && k < |doc| && mac in doc[k].Macs()
    && forall j :: k < j < |doc| ==> mac !in doc[j].Macs()
  }

  /** Placing a device by a step's own mentions on top of an earlier log. */
  lemma {:induction false} PlacedByStep(d: Device, log: seq<Mention>, macs: seq<Mac>, room: Id, zone: Option<Id>)
    ensures Placed(d, log + Mentions(macs, room, zone)) ==
            if d.mac in macs then d.(room := Some(room), zone := zone) else Placed(d, log)
    decreases |macs|
  {
    var all := log + Mentions(macs, room, zone);
    if macs == [] {
      assert all == log;
    } else {
      var n := |macs| - 1;
      assert all[..|all| - 1] == log + Mentions(macs[..n], room, zone);
      PlacedByStep(d, log, macs[..n], room, zone);
      assert macs == macs[..n] + [macs[n]];
    }
  }

  /** A step places exactly the devices it lists. */
  lemma StepPlaces(job: Job, h: Hier, s: Step, n: nat, d: Device)
    requires Apply(job, h, s, n).Ok?
    ensures
      var next := Apply(job, h, s, n).value;
      if d.mac in s.Macs() then PlacedIn(job, next, s, StepRow(job, h, s, n), Placed(d, next.log))
      else Placed(d, next.log) == Placed(d, h.log)
  {
    var row := StepRow(job, h, s, n);
    ApplyNotes(job, h, s, n);
    match s
    case RoomStep(r) => PlacedByStep(d, h.log, r.macs, row, None);
    case ZoneStep(_, z) => PlacedByStep(d, h.log, z.macs, h.cur, Some(row));
    case GroupStep(_) => assert h.log + [] == h.log;
  }

  lemma PlacedInLater(job: Job, a: Hier, b: Hier, s: Step, row: Id, d: Device)
    requires Extends(job, a, b) && PlacedIn(job, a, s, row, d)
    ensures PlacedIn(job, b, s, row, d)
  {
  }

  /** Entries that do not list a device leave it where it was. */
  lemma {:induction false} RestLeaves(job: Job, doc: seq<Step>, k: nat, d: Device)
    requires Run(job, doc).Ok? && k <= |doc|
    requires forall j :: k <= j < |doc| ==> d.mac !in doc[j].Macs()
    ensures Run(job, doc[..k]).Ok? && Placed(d, Run(job, doc).value.log) == Placed(d, Run(job, doc[..k]).value.log)
    decreases |doc|
  {
    if k == |doc| {
      assert doc[..k] == doc;
    } else {
      var n := |doc| - 1;
      assert doc[..n][..k] == doc[..k];
      RestLeaves(job, doc[..n], k, d);
      assert d.mac !in doc[n].Macs();
      StepPlaces(job, Run(job, doc[..n]).value, doc[n], n, d);
    }
  }

  /** A device ends up where its last mention in the document says. */
  lemma LastMentionWins(job: Job, doc: seq<Step>, k: nat, d: Device)
    requires Run(job, doc).Ok? && LastMentions(doc, k, d.mac)
    ensures PlacedBy(job, doc, k, Placed(d, Run(job, doc).value.log))
  {
    RestLeaves(job, doc, k + 1, d);
    RunExtends(job, doc, k + 1);
    RunPrefix(job, doc, k);
    RunStep(job, doc, k);
    var h, next := Run(job, doc[..k]).value, Run(job, doc[..k + 1]).value;
    StepPlaces(job, h, doc[k], k, d);
    PlacedInLater(job, next, Run(job, doc).value, doc[k], StepRow(job, h, doc[k], k), Placed(d, next.log));
  }

  /** A device the document does not mention is not moved. */
  lemma UnmentionedStays(job: Job, doc: seq<Step>, d: Device)
    requires Run(job, doc).Ok?
    requires forall j :: 0 <= j < |doc| ==> d.mac !in doc[j].Macs()
    ensures Placed(d, Run(job, doc).value.log) == d
  {
    RestLeaves(job, doc, 0, d);
    assert doc[..0] == [];
  }

  /** Every placement names an existing room, and a zone of that room. */
  ghost predicate SoundMention(job: Job, h: Hier, m: Mention) {
    && m.room in Rooms(job, h)
    && (m.zone.Some? ==> m.zone.value in Zones(job, h) && Zones(job, h)[m.zone.value].key.room == m.room)
  }

  lemma {:induction false} MentionsAreSound(job: Job, doc: seq<Step>)
    requires Run(job, doc).Ok? && WellNested(doc)
    ensures forall m :: m in Run(job, doc).value.log ==> SoundMention(job, Run(job, doc).value, m)
    decreases |doc|
  {
    if doc != [] {
      var n := |doc| - 1;
      var h, end := Run(job, doc[..n]).value, Run(job, doc).value;
      MentionsAreSound(job, doc[..n]);
      ApplyExtends(job, h, doc[n], n);
      ApplyNotes(job, h, doc[n], n);
      if doc[n].ZoneStep? {
        CurrentRoom(job, doc[..n], doc[n].parent);
      }
      forall m | m in end.log
        ensures SoundMention(job, end, m)
      {
        assert m in h.log ==> SoundMention(job, h, m);
      }
    }
  }

  /** A log either does not mention a device, or places it by one of its mentions. */
  lemma {:induction false} PlacedFromLog(d: Device, log: seq<Mention>)
    ensures if exists k :: 0 <= k < |log| && log[k].mac == d.mac then
              exists k :: 0 <= k < |log| && log[k].mac == d.mac
                  && Placed(d, log) == d.(room := Some(log[k].room), zone := log[k].zone)
            else Placed(d, log) == d
    decreases |log|
  {
    if log != [] {
      var n := |log| - 1;
      PlacedFromLog(d, log[..n]);
      if log[n].mac == d.mac {
        assert Placed(d, log) == d.(room := Some(log[n].room), zone := log[n].zone);
      } else if k :| 0 <= k < |log| && log[k].mac == d.mac {
        assert log[..n][k].mac == d.mac;
      }
    }
  }

  lemma StepLogs(job: Job, h: Hier, s: Step, n: nat, mac: Mac) returns (j: nat)
    requires Apply(job, h, s, n).Ok? && mac in s.Macs()
    ensures j < |Apply(job, h, s, n).value.log| && Apply(job, h, s, n).value.log[j].mac == mac
  {
    ApplyNotes(job, h, s, n);
    var a :| 0 <= a < |s.Macs()| && s.Macs()[a] == mac;
    j := |h.log| + a;
  }

  lemma MentionedIsLogged(job: Job, doc: seq<Step>, k: nat, mac: Mac) returns (j: nat)
    requires Run(job, doc).Ok? && k < |doc| && mac in doc[k].Macs()
    ensures j < |Run(job, doc).value.log| && Run(job, doc).value.log[j].mac == mac
  {
    RunExtends(job, doc, k + 1);
    RunPrefix(job, doc, k);
    RunStep(job, doc, k);
    j := StepLogs(job, Run(job, doc[..k]).value, doc[k], k, mac);
  }

  // ---------- The document of an envelope

  lemma {:induction false} RoomStepsNested(rooms: seq<RoomItem>)
    ensures WellNested(RoomSteps(rooms))
    ensures forall k :: 0 <= k < |RoomSteps(rooms)| ==> !RoomSteps(rooms)[k].GroupStep?
    decreases |rooms|
  {
    if rooms != [] {
      RoomStepsNested(rooms[..|rooms| - 1]);
    }
  }

  lemma DocumentNested(env: Envelope)
    ensures WellNested(Document(env))
  {
    RoomStepsNested(env.rooms);
  }
}
