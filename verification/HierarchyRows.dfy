/** What the rows of a hierarchy import hold: each is the row of an entry, and holds what the last such
    entry asks for. */
module HierarchyRows {
  import opened Prelude
  import opened Stores
  import opened Hierarchy
  import opened HierarchyFacts

  /** The rows of one kind written so far. */
  ghost function Written(h: Hier, kind: Kind): set<Id> {
    match kind
    case RoomKind => h.rooms.Keys
    case ZoneKind => h.zones.Keys
    case GroupKind => h.groups.Keys
  }

  /** The row `i` holds what the entry asks for, but for the room that a zone lies in. */
  ghost predicate HoldsEntry(job: Job, h: Hier, s: Step, i: Id) {
    && s.Name().Some? && i in Written(h, s.Kind())
    && match s
       case RoomStep(r) => h.rooms[i] == Keyed(r.name.value, Look(r.icon, OrElse(r.sortOrder, 0)))
       case ZoneStep(_, z) => h.zones[i].key.name == z.name.value
           && h.zones[i].attrs == Look(z.icon, OrElse(z.sortOrder, 0))
       case GroupStep(g) =>
         h.groups[i] == Keyed(g.name.value,
                              Roster(Look(g.icon, OrElse(g.sortOrder, 0)), Members(job.base.devices, g.macs)))
  }

  /** One step writes one row, of its kind. */
  lemma StepWrites(job: Job, h: Hier, s: Step, n: nat)
    requires Apply(job, h, s, n).Ok?
    ensures
      var next, i := Apply(job, h, s, n).value, StepRow(job, h, s, n);
      && HoldsEntry(job, next, s, i)
      && (forall kind :: Written(next, kind) == Written(h, kind) + if kind == s.Kind() then {i} else {})
  {
    hide RowFor;
  }

  /** A row that a step does not write holds what it held. */
  lemma StepKeeps(job: Job, h: Hier, s: Step, n: nat, was: Step, i: Id)
    requires Apply(job, h, s, n).Ok? && HoldsEntry(job, h, was, i)
    requires was.Kind() != s.Kind() || StepRow(job, h, s, n) != i
    ensures HoldsEntry(job, Apply(job, h, s, n).value, was, i)
  {
    hide RowFor;
  }

  /** Of the entries of its kind, the `k`-th is the last to be stored in the row. */
  ghost predicate LastInRow(job: Job, doc: seq<Step>, k: nat, i: Id)
    requires k < |doc| && Run(job, doc).Ok?
  {
    && RowOf(job, doc, k) == i
    && forall j: nat :: k < j < |doc| && doc[j].Kind() == doc[k].Kind() ==> RowOf(job, doc, j) != i
  }

  lemma RowOfLast(job: Job, doc: seq<Step>)
    requires doc != [] && Run(job, doc).Ok?
    ensures RowOf(job, doc, |doc| - 1) == StepRow(job, Run(job, doc[..|doc| - 1]).value, doc[|doc| - 1], |doc| - 1)
  {
    hide StepRow, Apply;
  }

  lemma StillLastInRow(job: Job, doc: seq<Step>, k: nat, i: Id)
    requires Run(job, doc).Ok? && k < |doc| - 1 && Run(job, doc[..|doc| - 1]).Ok?
        && LastInRow(job, doc[..|doc| - 1], k, i)
    requires doc[|doc| - 1].Kind() != doc[k].Kind() || RowOf(job, doc, |doc| - 1) != i
    ensures LastInRow(job, doc, k, i)
  {
    hide Run, RowOf;
    var n := |doc| - 1;
    RowOfPrefix(job, doc, n, k);
    forall j: nat | k < j < |doc| && doc[j].Kind() == doc[k].Kind() ensures RowOf(job, doc, j) != i {
      if j < n {
        RowOfPrefix(job, doc, n, j);
        assert doc[..n][j] == doc[j];
      }
    }
  }

  /** Every written row is the row of some entry, and holds what the last such entry asks for. */
  lemma {:induction false} WrittenByEntry(job: Job, doc: seq<Step>, kind: Kind, i: Id) returns (k: nat)
    requires Run(job, doc).Ok? && i in Written(Run(job, doc).value, kind)
    ensures k < |doc| && doc[k].Kind() == kind && LastInRow(job, doc, k, i)
        && HoldsEntry(job, Run(job, doc).value, doc[k], i)
    decreases |doc|
  {
    hide Apply, StepRow, RowOf, LastInRow, HoldsEntry;
    var n := |doc| - 1;
    var h := Run(job, doc[..n]).value;
    StepWrites(job, h, doc[n], n);
    RowOfLast(job, doc);
    if doc[n].Kind() == kind && StepRow(job, h, doc[n], n) == i {
      k := n;
      LastEntryIsLast(job, doc, i);
    } else {
      k := WrittenByEntry(job, doc[..n], kind, i);
      assert doc[..n][k] == doc[k];
      StepKeeps(job, h, doc[n], n, doc[k], i);
      StillLastInRow(job, doc, k, i);
    }
  }

  lemma LastEntryIsLast(job: Job, doc: seq<Step>, i: Id)
    requires doc != [] && Run(job, doc).Ok? && RowOf(job, doc, |doc| - 1) == i
    ensures LastInRow(job, doc, |doc| - 1, i)
  {
    hide Run, RowOf;
  }

  /** Every entry's row is written. */
  lemma {:induction false} EntryIsWritten(job: Job, doc: seq<Step>, k: nat)
    requires k < |doc| && Run(job, doc).Ok?
    ensures RowOf(job, doc, k) in Written(Run(job, doc).value, doc[k].Kind())
    decreases |doc|
  {
    hide Apply, StepRow, RowOf;
    var n := |doc| - 1;
    StepWrites(job, Run(job, doc[..n]).value, doc[n], n);
    if k == n {
      RowOfLast(job, doc);
    } else {
      EntryIsWritten(job, doc[..n], k);
      RowOfPrefix(job, doc, n, k);
      assert doc[..n][k] == doc[k];
    }
  }

  // ---------- The room a zone lies in

  /** The entry of the room that an entry belongs to: itself, or the room entry it follows. */
  ghost predicate RoomEntryOf(doc: seq<Step>, p: nat, k: nat) {
    && p <= k < |doc| && doc[p].RoomStep? && InRoom(doc[k], doc[p].room)
    && forall j: nat :: p < j <= k ==> doc[j].ZoneStep? && doc[j].parent == doc[p].room
  }

  /** The current room, after an entry, is the row of that entry's room. */
  lemma {:induction false} CurrentRow(job: Job, doc: seq<Step>, k: nat) returns (p: nat)
    requires k < |doc| && Run(job, doc).Ok? && WellNested(doc) && !doc[k].GroupStep?
    ensures RoomEntryOf(doc, p, k) && Run(job, doc[..k + 1]).Ok?
        && Run(job, doc[..k + 1]).value.cur == RowOf(job, doc, p)
    decreases k
  {
    hide RowFor;
    RunPrefix(job, doc, k);
    RunPrefix(job, doc, k + 1);
    RunStep(job, doc, k);
    if doc[k].RoomStep? {
      p := k;
    } else {
      p := CurrentRow(job, doc, k - 1);
    }
  }

  /** A zone entry's row lies in the row of the room entry it follows. */
  lemma ZoneInItsRoom(job: Job, doc: seq<Step>, k: nat) returns (p: nat)
    requires k < |doc| && Run(job, doc).Ok? && WellNested(doc) && doc[k].ZoneStep?
    ensures RoomEntryOf(doc, p, k)
    ensures
      var i, zones := RowOf(job, doc, k), Zones(job, Run(job, doc).value);
      i in zones && zones[i].key.room == RowOf(job, doc, p)
  {
    hide RowFor;
    RunPrefix(job, doc, k);
    RunPrefix(job, doc, k + 1);
    RunStep(job, doc, k);
    p := CurrentRow(job, doc, k);
    ApplyNotes(job, Run(job, doc[..k]).value, doc[k], k);
    RunExtends(job, doc, k + 1);
  }
}
