/** How the import of an arbitrary envelope ends: it succeeds exactly when nothing in the envelope is at fault,
    and fails with the first fault in the order of the import. Items with and without an id alike. */
module RestoreOutcomes {
  import opened Prelude
  import opened Stores
  import opened Envelopes
  import opened Hierarchy
  import opened Tables
  import opened Backups
  import opened ImportPlans

  /** The first fault of a list, if it has any. */
  function First(faults: seq<Option<Error>>): (r: Option<Error>)
    ensures r.None? <==> forall k :: 0 <= k < |faults| ==> faults[k].None?
    ensures r.Some? ==> exists k :: 0 <= k < |faults| && faults[k] == r && forall j :: 0 <= j < k ==> faults[j].None?
    decreases |faults|
  {
    if faults == [] then None
    else
      var n := |faults| - 1;
      var front := First(faults[..n]);
      assert forall k :: 0 <= k < n ==> faults[..n][k] == faults[k];
      if front.Some? then front else faults[n]
  }

  // ---------- Triggers and targets

  function TriggerFault(t: TriggerItem): Option<Error> {
    if t.kind.None? then Some(MissingKey)
    else if t.kind.value in {"cron", "sunrise", "sunset", "webhook"} then None
    else Some(UnknownType)
  }

  function TargetFault(t: TargetItem): Option<Error> {
    if t.kind.None? then Some(MissingKey)
    else if t.kind.value !in {"device", "room", "zone", "group", "all", "all_except"} then Some(UnknownType)
    else if t.state.None? then Some(MissingKey)
    else None
  }

  function TriggerFaults(items: seq<TriggerItem>): (r: seq<Option<Error>>)
    ensures |r| == |items| && forall k :: 0 <= k < |items| ==> r[k] == TriggerFault(items[k])
  {
    seq(|items|, k requires 0 <= k < |items| => TriggerFault(items[k]))
  }

  function TargetFaults(items: seq<TargetItem>): (r: seq<Option<Error>>)
    ensures |r| == |items| && forall k :: 0 <= k < |items| ==> r[k] == TargetFault(items[k])
  {
    seq(|items|, k requires 0 <= k < |items| => TargetFault(items[k]))
  }

  /** A result is this fault, or there is none. */
  ghost predicate Ends<T>(r: Result<T, Error>, fault: Option<Error>) {
    if fault.Some? then r == Err(fault.value) else r.Ok?
  }

  lemma TriggerReads(t: TriggerItem)
    ensures Ends(ReadTrigger(t), TriggerFault(t))
  {
  }

  lemma TargetReads(remap: map<Id, Id>, t: TargetItem)
    ensures Ends(ReadTarget(remap, t), TargetFault(t))
  {
  }

  lemma FirstOneMore(front: seq<Option<Error>>, last: Option<Error>)
    ensures First(front + [last]) == if First(front).Some? then First(front) else last
  {
    assert (front + [last])[..|front|] == front;
  }

  lemma {:induction false} TriggersRead(items: seq<TriggerItem>)
    ensures Ends(ReadTriggers(items), First(TriggerFaults(items)))
    decreases |items|
  {
    hide ReadTrigger, TriggerFault, First;
    if items != [] {
      var n := |items| - 1;
      TriggersRead(items[..n]);
      TriggerReads(items[n]);
      assert TriggerFaults(items) == TriggerFaults(items[..n]) + [TriggerFault(items[n])];
      FirstOneMore(TriggerFaults(items[..n]), TriggerFault(items[n]));
    }
  }

  lemma {:induction false} TargetsRead(remap: map<Id, Id>, items: seq<TargetItem>)
    ensures Ends(ReadTargets(remap, items), First(TargetFaults(items)))
    decreases |items|
  {
    hide ReadTarget, TargetFault, First;
    if items != [] {
      var n := |items| - 1;
      TargetsRead(remap, items[..n]);
      TargetReads(remap, items[n]);
      assert TargetFaults(items) == TargetFaults(items[..n]) + [TargetFault(items[n])];
      FirstOneMore(TargetFaults(items[..n]), TargetFault(items[n]));
    }
  }

  /** The two enumerations by their texts. */
  lemma TypesByName()
    ensures ParseTriggerType("cron") == Some(Cron) && ParseTriggerType("webhook") == Some(Webhook)
    ensures ParseTriggerType("sunrise") == Some(Sunrise) && ParseTriggerType("sunset") == Some(Sunset)
    ensures ParseTargetType("device") == Some(OneDevice) && ParseTargetType("room") == Some(OneRoom)
    ensures ParseTargetType("zone") == Some(OneZone) && ParseTargetType("group") == Some(OneGroup)
    ensures ParseTargetType("all") == Some(All) && ParseTargetType("all_except") == Some(AllExcept)
  {
  }

  // ---------- A table of items

  /** The row that the `k`-th item gets if it is inserted: the id it brings, or else the one drawn for it. */
  function RowId(ids: seq<Option<Id>>, mint: nat -> Id, k: nat): Id
    requires k < |ids|
  {
    if ids[k].Some? && ids[k].value != "" then ids[k].value else mint(k)
  }

  /** The `k`-th item would be inserted over a row that is there: in a merge a row with the id it brings is
      updated, but in a replace, or under a drawn id, that is a collision. */
  ghost predicate Collides(there: set<Id>, mode: Mode, ids: seq<Option<Id>>, mint: nat -> Id, k: nat)
    requires k < |ids|
  {
    && (mode.Replace? || ids[k].None? || ids[k].value == "")
    && (RowId(ids, mint, k) in there || exists j: nat :: j < k && RowId(ids, mint, j) == RowId(ids, mint, k))
  }

  function Ids<V>(entries: seq<Entry<V>>): (r: seq<Option<Id>>)
    ensures |r| == |entries| && forall k :: 0 <= k < |entries| ==> r[k] == entries[k].id
  {
    seq(|entries|, k requires 0 <= k < |entries| => entries[k].id)
  }

  /** What is wrong with an item, in the order in which it is found out. */
  ghost function EntryFault<V(!new)>(there: set<Id>, mode: Mode, mint: nat -> Id, entries: seq<Entry<V>>,
                                     k: nat): Option<Error>
    requires k < |entries|
  {
    if entries[k].early.Some? then entries[k].early
    else if Collides(there, mode, Ids(entries), mint, k) then Some(Collision)
    else if entries[k].view.Err? then Some(entries[k].view.error)
    else None
  }

  ghost function EntryFaults<V(!new)>(there: set<Id>, mode: Mode, mint: nat -> Id,
                                      entries: seq<Entry<V>>): (r: seq<Option<Error>>)
    ensures |r| == |entries| && forall k :: 0 <= k < |entries| ==> r[k] == EntryFault(there, mode, mint, entries, k)
  {
    seq(|entries|, k requires 0 <= k < |entries| => EntryFault(there, mode, mint, entries, k))
  }

  /** The rows there are when the last item comes. */
  lemma RowsThere<V(!new)>(base: map<Id, Owned<V>>, mode: Mode, user: Id, mint: nat -> Id, entries: seq<Entry<V>>,
                           i: Id)
    requires LoadAll(base, mode, user, mint, entries).Ok?
    ensures i in base + LoadAll(base, mode, user, mint, entries).value.rows <==>
              i in base || exists j: nat :: j < |entries| && RowId(Ids(entries), mint, j) == i
  {
    hide LoadAll;
    LoadIsFaithful(base, mode, user, mint, entries);
    forall j: nat | j < |entries| ensures RowId(Ids(entries), mint, j) == Slot(entries[j], mint(j)) {
    }
  }

  lemma LastEntryLoads<V(!new)>(base: map<Id, Owned<V>>, mode: Mode, user: Id, mint: nat -> Id, entries: seq<Entry<V>>)
    requires entries != [] && LoadAll(base, mode, user, mint, entries[..|entries| - 1]).Ok?
    ensures
      var n := |entries| - 1;
      Ends(LoadOne(base, mode, user, mint(n), LoadAll(base, mode, user, mint, entries[..n]).value, entries[n]),
           EntryFault(base.Keys, mode, mint, entries, n))
  {
    hide LoadAll;
    var n := |entries| - 1;
    var front := entries[..n];
    var slot := Slot(entries[n], mint(n));
    RowsThere(base, mode, user, mint, front, slot);
    assert RowId(Ids(entries), mint, n) == slot;
    forall j: nat | j < n ensures RowId(Ids(front), mint, j) == RowId(Ids(entries), mint, j) {
      assert front[j] == entries[j];
    }
  }

  /** Items load exactly when none of them is at fault, and otherwise fail with the first fault. */
  lemma {:induction false} LoadEnds<V(!new)>(base: map<Id, Owned<V>>, mode: Mode, user: Id, mint: nat -> Id,
                                             entries: seq<Entry<V>>)
    ensures Ends(LoadAll(base, mode, user, mint, entries), First(EntryFaults(base.Keys, mode, mint, entries)))
    decreases |entries|
  {
    hide LoadOne, EntryFault;
    if entries != [] {
      var n := |entries| - 1;
      LoadEnds(base, mode, user, mint, entries[..n]);
      FaultsOneMore(base.Keys, mode, mint, entries);
      if LoadAll(base, mode, user, mint, entries[..n]).Ok? {
        LastEntryLoads(base, mode, user, mint, entries);
      }
    }
  }

  lemma FaultsOneMore<V(!new)>(there: set<Id>, mode: Mode, mint: nat -> Id, entries: seq<Entry<V>>)
    requires entries != []
    ensures
      var n := |entries| - 1;
      First(EntryFaults(there, mode, mint, entries)) ==
        if First(EntryFaults(there, mode, mint, entries[..n])).Some? then First(EntryFaults(there, mode, mint,
            entries[..n]))
        else EntryFault(there, mode, mint, entries, n)
  {
    var n := |entries| - 1;
    var front := entries[..n];
    forall k: nat | k < n ensures EntryFault(there, mode, mint, front, k) == EntryFault(there, mode, mint, entries, k) {
      assert front[k] == entries[k];
      assert forall j: nat :: j <= k ==> RowId(Ids(front), mint, j) == RowId(Ids(entries), mint, j);
    }
    assert EntryFaults(there, mode, mint, entries) ==
           EntryFaults(there, mode, mint, front) + [EntryFault(there, mode, mint, entries, n)];
    FirstOneMore(EntryFaults(there, mode, mint, front), EntryFault(there, mode, mint, entries, n));
  }

  // ---------- Schedules, quick actions, scenes

  function ScheduleIds(items: seq<ScheduleItem>): (r: seq<Option<Id>>)
    ensures |r| == |items| && forall k :: 0 <= k < |items| ==> r[k] == items[k].id
  {
    seq(|items|, k requires 0 <= k < |items| => items[k].id)
  }

  function ActionIds(items: seq<ActionItem>): (r: seq<Option<Id>>)
    ensures |r| == |items| && forall k :: 0 <= k < |items| ==> r[k] == items[k].id
  {
    seq(|items|, k requires 0 <= k < |items| => items[k].id)
  }

  function SceneIds(items: seq<SceneItem>): (r: seq<Option<Id>>)
    ensures |r| == |items| && forall k :: 0 <= k < |items| ==> r[k] == items[k].id
  {
    seq(|items|, k requires 0 <= k < |items| => items[k].id)
  }

  /** A schedule needs a name, a place, and triggers and targets of known types. */
  ghost function ScheduleFault(there: set<Id>, mode: Mode, mint: nat -> Id, items: seq<ScheduleItem>,
                               k: nat): Option<Error>
    requires k < |items|
  {
    if items[k].name.None? then Some(MissingKey)
    else if Collides(there, mode, ScheduleIds(items), mint, k) then Some(Collision)
    else First(TriggerFaults(items[k].triggers) + TargetFaults(items[k].targets))
  }

  /** A quick action needs, before all else, a target. */
  ghost function ActionFault(there: set<Id>, mode: Mode, mint: nat -> Id, items: seq<ActionItem>, k: nat): Option<Error>
    requires k < |items|
  {
    if |items[k].targets| == 0 then Some(NoTargets)
    else if items[k].name.None? then Some(MissingKey)
    else if Collides(there, mode, ActionIds(items), mint, k) then Some(Collision)
    else First(TargetFaults(items[k].targets))
  }

  ghost function SceneFault(there: set<Id>, mode: Mode, mint: nat -> Id, items: seq<SceneItem>, k: nat): Option<Error>
    requires k < |items|
  {
    if items[k].name.None? then Some(MissingKey)
    else if Collides(there, mode, SceneIds(items), mint, k) then Some(Collision)
    else None
  }

  ghost function ScheduleFaults(there: set<Id>, mode: Mode, mint: nat -> Id,
                                items: seq<ScheduleItem>): (r: seq<Option<Error>>)
    ensures |r| == |items| && forall k :: 0 <= k < |items| ==> r[k] == ScheduleFault(there, mode, mint, items, k)
  {
    seq(|items|, k requires 0 <= k < |items| => ScheduleFault(there, mode, mint, items, k))
  }

  ghost function ActionFaults(there: set<Id>, mode: Mode, mint: nat -> Id,
                              items: seq<ActionItem>): (r: seq<Option<Error>>)
    ensures |r| == |items| && forall k :: 0 <= k < |items| ==> r[k] == ActionFault(there, mode, mint, items, k)
  {
    seq(|items|, k requires 0 <= k < |items| => ActionFault(there, mode, mint, items, k))
  }

  ghost function SceneFaults(there: set<Id>, mode: Mode, mint: nat -> Id,
                             items: seq<SceneItem>): (r: seq<Option<Error>>)
    ensures |r| == |items| && forall k :: 0 <= k < |items| ==> r[k] == SceneFault(there, mode, mint, items, k)
  {
    seq(|items|, k requires 0 <= k < |items| => SceneFault(there, mode, mint, items, k))
  }

  lemma {:induction false} FirstOfTwo(a: seq<Option<Error>>, b: seq<Option<Error>>)
    ensures First(a + b) == if First(a).Some? then First(a) else First(b)
    decreases |b|
  {
    if b == [] {
      assert a + b == a;
    } else {
      var n := |b| - 1;
      assert a + b == (a + b[..n]) + [b[n]];
      FirstOfTwo(a, b[..n]);
      FirstOneMore(a + b[..n], b[n]);
      FirstOneMore(b[..n], b[n]);
      assert b == b[..n] + [b[n]];
    }
  }

  lemma ScheduleReads(remap: map<Id, Id>, item: ScheduleItem)
    ensures Ends(ReadSchedule(remap, item), First(TriggerFaults(item.triggers) + TargetFaults(item.targets)))
  {
    TriggersRead(item.triggers);
    TargetsRead(remap, item.targets);
    FirstOfTwo(TriggerFaults(item.triggers), TargetFaults(item.targets));
  }

  lemma SchedulesEnd(there: set<Id>, mode: Mode, mint: nat -> Id, remap: map<Id, Id>, items: seq<ScheduleItem>)
    ensures EntryFaults(there, mode, mint, ScheduleEntries(remap, items)) == ScheduleFaults(there, mode, mint, items)
  {
    hide ReadSchedule, First, Collides;
    var entries := ScheduleEntries(remap, items);
    assert Ids(entries) == ScheduleIds(items);
    forall k: nat | k < |items|
      ensures EntryFault(there, mode, mint, entries, k) == ScheduleFault(there, mode, mint, items, k)
    {
      ScheduleReads(remap, items[k]);
    }
  }

  lemma ActionsEnd(there: set<Id>, mode: Mode, mint: nat -> Id, remap: map<Id, Id>, items: seq<ActionItem>)
    ensures EntryFaults(there, mode, mint, ActionEntries(remap, items)) == ActionFaults(there, mode, mint, items)
  {
    hide ReadTargets, First, Collides;
    var entries := ActionEntries(remap, items);
    assert Ids(entries) == ActionIds(items);
    forall k: nat | k < |items|
      ensures EntryFault(there, mode, mint, entries, k) == ActionFault(there, mode, mint, items, k)
    {
      TargetsRead(remap, items[k].targets);
    }
  }

  lemma ScenesEnd(there: set<Id>, mode: Mode, mint: nat -> Id, items: seq<SceneItem>)
    ensures EntryFaults(there, mode, mint, SceneEntries(items)) == SceneFaults(there, mode, mint, items)
  {
    hide Collides;
    var entries := SceneEntries(items);
    assert Ids(entries) == SceneIds(items);
    forall k: nat | k < |items|
      ensures EntryFault(there, mode, mint, entries, k) == SceneFault(there, mode, mint, items, k)
    {
    }
  }

  // ---------- The whole import

  /** The rows that an import finds: in a replace, none. */
  function There<V>(table: map<Id, V>, mode: Mode): set<Id> {
    if mode.Merge? then table.Keys else {}
  }

  /** The faults of the items, in the order in which they are imported. */
  ghost function ItemFaults(st: Store, env: Envelope, mode: Mode, mint: Mint): seq<Option<Error>> {
    ScheduleFaults(There(st.schedules, mode), mode, mint.schedules, env.schedules)
    + ActionFaults(There(st.actions, mode), mode, mint.actions, env.actions)
    + SceneFaults(There(st.scenes, mode), mode, mint.scenes, env.scenes)
  }

  /** There is a plan for the hierarchy of the envelope. */
  ghost predicate HasPlan(st: Store, env: Envelope, mode: Mode, mint: Mint) {
    exists rows :: IsPlan(HierarchyJob(st, env, mode, mint), Document(env), rows)
  }

  lemma {:induction false} HierarchyErrors(job: Job, doc: seq<Step>)
    requires Run(job, doc).Err?
    ensures Run(job, doc).error in {MissingKey, Collision, ManyRows}
    decreases |doc|
  {
    if doc != [] && Run(job, doc[..|doc| - 1]).Err? {
      HierarchyErrors(job, doc[..|doc| - 1]);
    }
  }

  lemma SchedulesLoad(st: Store, env: Envelope, mode: Mode, user: Id, mint: Mint, remap: map<Id, Id>)
    ensures Ends(LoadSchedules(st, env, mode, user, mint, remap),
                 First(ScheduleFaults(There(st.schedules, mode), mode, mint.schedules, env.schedules)))
  {
    hide LoadAll, First;
    assert Kept(st.schedules, mode).Keys == There(st.schedules, mode);
    LoadEnds(Kept(st.schedules, mode), mode, user, mint.schedules, ScheduleEntries(remap, env.schedules));
    SchedulesEnd(There(st.schedules, mode), mode, mint.schedules, remap, env.schedules);
  }

  lemma ActionsLoad(st: Store, env: Envelope, mode: Mode, user: Id, mint: Mint, remap: map<Id, Id>)
    ensures Ends(LoadActions(st, env, mode, user, mint, remap),
                 First(ActionFaults(There(st.actions, mode), mode, mint.actions, env.actions)))
  {
    hide LoadAll, First;
    assert Kept(st.actions, mode).Keys == There(st.actions, mode);
    LoadEnds(Kept(st.actions, mode), mode, user, mint.actions, ActionEntries(remap, env.actions));
    ActionsEnd(There(st.actions, mode), mode, mint.actions, remap, env.actions);
  }

  lemma ScenesLoad(st: Store, env: Envelope, mode: Mode, user: Id, mint: Mint)
    ensures Ends(LoadScenes(st, env, mode, user, mint),
                 First(SceneFaults(There(st.scenes, mode), mode, mint.scenes, env.scenes)))
  {
    hide LoadAll, First;
    assert Kept(st.scenes, mode).Keys == There(st.scenes, mode);
    LoadEnds(Kept(st.scenes, mode), mode, user, mint.scenes, SceneEntries(env.scenes));
    ScenesEnd(There(st.scenes, mode), mode, mint.scenes, env.scenes);
  }

  lemma ItemsEnd(st: Store, env: Envelope, mode: Mode, user: Id, mint: Mint, remap: map<Id, Id>)
    ensures
      var s := LoadSchedules(st, env, mode, user, mint, remap);
      var a := LoadActions(st, env, mode, user, mint, remap);
      var c := LoadScenes(st, env, mode, user, mint);
      var fault := First(ItemFaults(st, env, mode, mint));
      if s.Err? then fault == Some(s.error) else if a.Err? then fault == Some(a.error)
      else if c.Err? then fault == Some(c.error) else fault == None
  {
    hide LoadSchedules, LoadActions, LoadScenes, First;
    SchedulesLoad(st, env, mode, user, mint, remap);
    ActionsLoad(st, env, mode, user, mint, remap);
    ScenesLoad(st, env, mode, user, mint);
    var ss := ScheduleFaults(There(st.schedules, mode), mode, mint.schedules, env.schedules);
    var aa := ActionFaults(There(st.actions, mode), mode, mint.actions, env.actions);
    var cc := SceneFaults(There(st.scenes, mode), mode, mint.scenes, env.scenes);
    FirstOfTwo(ss + aa, cc);
    FirstOfTwo(ss, aa);
  }

  /** How the import of any envelope ends, in either mode. A wrong version is refused; a hierarchy without a
      plan fails; otherwise the import succeeds exactly when no schedule, quick action or scene is at fault,
      and fails with the first of their faults. */
  lemma RestoreEnds(st: Store, env: Envelope, mode: Mode, user: Id, mint: Mint)
    ensures
      var r := Restore(st, env, mode, user, mint);
      if env.version != 1 then r == Err(UnsupportedVersion)
      else if !HasPlan(st, env, mode, mint) then r.Err? && r.error in {MissingKey, Collision, ManyRows}
      else Ends(r, First(ItemFaults(st, env, mode, mint)))
  {
    hide Run, HasPlan, LoadSchedules, LoadActions, LoadScenes, Assemble, ItemFaults, First;
    var job, doc := HierarchyJob(st, env, mode, mint), Document(env);
    PlanForAll(st, env, mode, mint);
    if Run(job, doc).Ok? {
      ItemsEnd(st, env, mode, user, mint, IdRemap(st, env, Run(job, doc).value));
    } else {
      HierarchyErrors(job, doc);
    }
  }

  lemma PlanForAll(st: Store, env: Envelope, mode: Mode, mint: Mint)
    ensures HasPlan(st, env, mode, mint) <==> Run(HierarchyJob(st, env, mode, mint), Document(env)).Ok?
  {
    hide Run, IsPlan;
    ImportsIffSomePlan(HierarchyJob(st, env, mode, mint), Document(env));
  }
}
