/** Importing schedules, quick actions and scenes into the session. */
module ItemImports {
  import opened Prelude
  import opened Stores
  import opened Envelopes
  import opened Hierarchy
  import opened Tables
  import opened Backups
  import opened Databases

  method BuildTriggers(items: seq<TriggerItem>) returns (r: Result<seq<Trigger>, Error>)
    ensures r == ReadTriggers(items)
  {
    var triggers := [];
    for i := 0 to |items|
      invariant ReadTriggers(items[..i]) == Ok(triggers)
    {
      assert items[..i + 1][..i] == items[..i];
      var item := items[i];
      var e: Option<Error> := None;
      if item.kind.None? {
        e := Some(MissingKey);
      } else {
        var kind := ParseTriggerType(item.kind.value);
        if kind.None? {
          e := Some(UnknownType);
        } else {
          triggers := triggers + [Trigger(kind.value, item.cron, item.offset)];
        }
      }
      if e.Some? {
        TriggersFail(items, i + 1);
        return Err(e.value);
      }
    }
    assert items[..|items|] == items;
    r := Ok(triggers);
  }

  lemma {:induction false} TriggersFail(items: seq<TriggerItem>, k: nat)
    requires k <= |items| && ReadTriggers(items[..k]).Err?
    ensures ReadTriggers(items) == ReadTriggers(items[..k])
    decreases |items|
  {
    if k == |items| {
      assert items[..k] == items;
    } else {
      assert items[..|items| - 1][..k] == items[..k];
      TriggersFail(items[..|items| - 1], k);
    }
  }

  method BuildExcludes(remap: map<Id, Id>, given: Option<seq<Id>>) returns (excludes: Option<seq<Id>>)
    ensures excludes == RemapExcludes(remap, given)
  {
    excludes := given;
    if given.Some? && given.value != [] {
      var ids := [];
      for j := 0 to |given.value|
        invariant ids == SubstAll(remap, given.value)[..j]
      {
        ids := ids + [if given.value[j] in remap then remap[given.value[j]] else given.value[j]];
      }
      assert SubstAll(remap, given.value)[..|ids|] == SubstAll(remap, given.value);
      excludes := Some(ids);
    }
  }

  method BuildTarget(remap: map<Id, Id>, item: TargetItem) returns (r: Result<Target, Error>)
    ensures r == ReadTarget(remap, item)
  {
    var id := item.id;
    if Truthy(id) && id.value in remap {
      id := Some(remap[id.value]);
    }
    var excludes := BuildExcludes(remap, item.excludes);
    if item.kind.None? {
      return Err(MissingKey);
    }
    var kind := ParseTargetType(item.kind.value);
    if kind.None? {
      return Err(UnknownType);
    }
    if item.state.None? {
      return Err(MissingKey);
    }
    r := Ok(Target(kind.value, id, excludes, item.state.value));
  }

  /** Targets are built one by one, each id replaced through the remap when it is found there. */
  method BuildTargets(remap: map<Id, Id>, items: seq<TargetItem>) returns (r: Result<seq<Target>, Error>)
    ensures r == ReadTargets(remap, items)
  {
    hide ReadTarget;
    var targets := [];
    for i := 0 to |items|
      invariant ReadTargets(remap, items[..i]) == Ok(targets)
    {
      assert items[..i + 1][..i] == items[..i];
      var target := BuildTarget(remap, items[i]);
      if target.Err? {
        TargetsFail(remap, items, i + 1);
        return Err(target.error);
      }
      targets := targets + [target.value];
    }
    assert items[..|items|] == items;
    r := Ok(targets);
  }

  lemma {:induction false} TargetsFail(remap: map<Id, Id>, items: seq<TargetItem>, k: nat)
    requires k <= |items| && ReadTargets(remap, items[..k]).Err?
    ensures ReadTargets(remap, items) == ReadTargets(remap, items[..k])
    decreases |items|
  {
    if k == |items| {
      assert items[..k] == items;
    } else {
      assert items[..|items| - 1][..k] == items[..k];
      TargetsFail(remap, items[..|items| - 1], k);
    }
  }

  /** The table and counters stand where a load of the first items stands. */
  ghost predicate Loaded<V(!new)>(base: map<Id, Owned<V>>, mode: Mode, user: Id, mint: nat -> Id,
                                  entries: seq<Entry<V>>, k: nat,
                                  table: map<Id, Owned<V>>, counts: Counts)
    requires k <= |entries|
  {
    && LoadAll(base, mode, user, mint, entries[..k]).Ok?
    && var l := LoadAll(base, mode, user, mint, entries[..k]).value;
       table == base + l.rows && counts == CountsOf(l)
  }

  lemma NothingLoaded<V(!new)>(base: map<Id, Owned<V>>, mode: Mode, user: Id, mint: nat -> Id, entries: seq<Entry<V>>)
    ensures Loaded(base, mode, user, mint, entries, 0, base, Counts(0, 0))
  {
    assert base + map[] == base;
  }

  lemma ItemLoaded<V(!new)>(base: map<Id, Owned<V>>, mode: Mode, user: Id, mint: nat -> Id, entries: seq<Entry<V>>,
                            k: nat,
                            table: map<Id, Owned<V>>, counts: Counts)
    requires k < |entries| && Loaded(base, mode, user, mint, entries, k, table, counts)
    requires entries[k].early.None? && entries[k].view.Ok?
    ensures
      var e, i := entries[k], Slot(entries[k], mint(k));
      && (Found(table, mode, e.id) ==>
            Loaded(base, mode, user, mint, entries, k + 1, table[i := Owned(e.view.value, table[i].createdBy)],
                   counts.(updated := counts.updated + 1)))
      && (i !in table ==>
            Loaded(base, mode, user, mint, entries, k + 1, table[i := Owned(e.view.value, user)],
                   counts.(created := counts.created + 1)))
  {
    LoadStep(base, mode, user, mint, entries, k);
    var rows, e, i := LoadAll(base, mode, user, mint, entries[..k]).value.rows, entries[k], Slot(entries[k], mint(k));
    OverlayUpdate(base, rows, i, Owned(e.view.value, user));
    if i in table {
      OverlayUpdate(base, rows, i, Owned(e.view.value, table[i].createdBy));
    }
  }

  lemma ItemRefused<V(!new)>(base: map<Id, Owned<V>>, mode: Mode, user: Id, mint: nat -> Id, entries: seq<Entry<V>>,
                             k: nat,
                             table: map<Id, Owned<V>>, counts: Counts)
    requires k < |entries| && Loaded(base, mode, user, mint, entries, k, table, counts)
    ensures
      var e, i := entries[k], Slot(entries[k], mint(k));
      var collides, all := !Found(table, mode, e.id) && i in table, LoadAll(base, mode, user, mint, entries);
      && (e.early.Some? ==> all == Err(e.early.value))
      && (e.early.None? && collides ==> all == Err(Collision))
      && (e.early.None? && !collides && e.view.Err? ==> all == Err(e.view.error))
  {
    LoadStep(base, mode, user, mint, entries, k);
    if LoadAll(base, mode, user, mint, entries[..k + 1]).Err? {
      LoadFailure(base, mode, user, mint, entries, k + 1);
    }
  }

  method ImportSchedules(db: Database, items: seq<ScheduleItem>, mode: Mode, user: Id, mint: nat -> Id,
                         remap: map<Id, Id>)
      returns (r: Result<Counts, Error>)
    modifies db`schedules
    ensures match LoadAll(Kept(old(db.schedules), mode), mode, user, mint, ScheduleEntries(remap, items))
            case Err(e) => r == Err(e)
            case Ok(l) => r == Ok(CountsOf(l)) && db.schedules == Kept(old(db.schedules), mode) + l.rows
  {
    if mode.Replace? {
      while db.schedules != map[]
        decreases |db.schedules|
      {
        var i :| i in db.schedules;
        db.schedules := db.schedules - {i};
      }
    }
    ghost var base, entries := db.schedules, ScheduleEntries(remap, items);
    var counts := Counts(0, 0);
    NothingLoaded(base, mode, user, mint, entries);
    for k := 0 to |items|
      invariant Loaded(base, mode, user, mint, entries, k, db.schedules, counts)
    {
      var item := items[k];
      ItemRefused(base, mode, user, mint, entries, k, db.schedules, counts);
      if entries[k].early.None? && entries[k].view.Ok? {
        ItemLoaded(base, mode, user, mint, entries, k, db.schedules, counts);
      }
      if item.name.None? {
        return Err(MissingKey);
      }
      var i := if Truthy(item.id) then item.id.value else mint(k);
      var existing := mode.Merge? && Truthy(item.id) && item.id.value in db.schedules;
      if !existing && i in db.schedules {
        return Err(Collision);
      }
      var triggers := BuildTriggers(item.triggers);
      if triggers.Err? {
        return Err(triggers.error);
      }
      var targets := BuildTargets(remap, item.targets);
      if targets.Err? {
        return Err(targets.error);
      }
      var schedule := Schedule(item.name.value, OrElse(item.enabled, true), OrElse(item.priority, 0), triggers.value,
                               targets.value);
      if existing {
        db.schedules := db.schedules[i := db.schedules[i].(view := schedule)];
        counts := counts.(updated := counts.updated + 1);
      } else {
        db.schedules := db.schedules[i := Owned(schedule, user)];
        counts := counts.(created := counts.created + 1);
      }
    }
    assert entries[..|items|] == entries;
    r := Ok(counts);
  }

  method ImportQuickActions(db: Database, items: seq<ActionItem>, mode: Mode, user: Id, mint: nat -> Id,
                            remap: map<Id, Id>)
      returns (r: Result<Counts, Error>)
    modifies db`actions
    ensures match LoadAll(Kept(old(db.actions), mode), mode, user, mint, ActionEntries(remap, items))
            case Err(e) => r == Err(e)
            case Ok(l) => r == Ok(CountsOf(l)) && db.actions == Kept(old(db.actions), mode) + l.rows
  {
    if mode.Replace? {
      while db.actions != map[]
        decreases |db.actions|
      {
        var i :| i in db.actions;
        db.actions := db.actions - {i};
      }
    }
    ghost var base, entries := db.actions, ActionEntries(remap, items);
    var counts := Counts(0, 0);
    NothingLoaded(base, mode, user, mint, entries);
    for k := 0 to |items|
      invariant Loaded(base, mode, user, mint, entries, k, db.actions, counts)
    {
      var item := items[k];
      ItemRefused(base, mode, user, mint, entries, k, db.actions, counts);
      if entries[k].early.None? && entries[k].view.Ok? {
        ItemLoaded(base, mode, user, mint, entries, k, db.actions, counts);
      }
      if item.targets == [] {
        return Err(NoTargets);
      }
      if item.name.None? {
        return Err(MissingKey);
      }
      var i := if Truthy(item.id) then item.id.value else mint(k);
      var existing := mode.Merge? && Truthy(item.id) && item.id.value in db.actions;
      if !existing && i in db.actions {
        return Err(Collision);
      }
      var targets := BuildTargets(remap, item.targets);
      if targets.Err? {
        return Err(targets.error);
      }
      var action := QuickAction(item.name.value, item.icon, OrElse(item.sortOrder, 0), targets.value);
      if existing {
        db.actions := db.actions[i := db.actions[i].(view := action)];
        counts := counts.(updated := counts.updated + 1);
      } else {
        db.actions := db.actions[i := Owned(action, user)];
        counts := counts.(created := counts.created + 1);
      }
    }
    assert entries[..|items|] == entries;
    r := Ok(counts);
  }

  method ImportScenes(db: Database, items: seq<SceneItem>, mode: Mode, user: Id, mint: nat -> Id)
      returns (r: Result<Counts, Error>)
    modifies db`scenes
    ensures match LoadAll(Kept(old(db.scenes), mode), mode, user, mint, SceneEntries(items))
            case Err(e) => r == Err(e)
            case Ok(l) => r == Ok(CountsOf(l)) && db.scenes == Kept(old(db.scenes), mode) + l.rows
  {
    if mode.Replace? {
      while db.scenes != map[]
        decreases |db.scenes|
      {
        var i :| i in db.scenes;
        db.scenes := db.scenes - {i};
      }
    }
    ghost var base, entries := db.scenes, SceneEntries(items);
    var counts := Counts(0, 0);
    NothingLoaded(base, mode, user, mint, entries);
    for k := 0 to |items|
      invariant Loaded(base, mode, user, mint, entries, k, db.scenes, counts)
    {
      var item := items[k];
      ItemRefused(base, mode, user, mint, entries, k, db.scenes, counts);
      if entries[k].early.None? {
        ItemLoaded(base, mode, user, mint, entries, k, db.scenes, counts);
      }
      if item.name.None? {
        return Err(MissingKey);
      }
      var i := if Truthy(item.id) then item.id.value else mint(k);
      var scene := Scene(item.name.value, item.red, item.green, item.blue, item.temp, OrElse(item.brightness, 100));
      if mode.Merge? && Truthy(item.id) && item.id.value in db.scenes {
        db.scenes := db.scenes[i := db.scenes[i].(view := scene)];
        counts := counts.(updated := counts.updated + 1);
      } else if i in db.scenes {
        return Err(Collision);
      } else {
        db.scenes := db.scenes[i := Owned(scene, user)];
        counts := counts.(created := counts.created + 1);
      }
    }
    assert entries[..|items|] == entries;
    r := Ok(counts);
  }

  // ---------- The whole restore

  lemma PlacesJob(st: Store, env: Envelope, mode: Mode, mint: Mint, renamed: Store)
    requires renamed == st.(devices := RenameAll(st.devices, env.devices))
    ensures Job(if mode.Replace? then Wiped(renamed)
                else renamed, mode, mint.hierarchy) == HierarchyJob(st, env, mode, mint)
    ensures RoomSteps(env.rooms) + GroupSteps(env.groups) == Document(env)
  {
  }

  /** What the first two phases hand on: the merged remap, and how many ids each of them remapped. */
  datatype Places = Places(remap: map<Id, Id>, devices: nat, hierarchy: nat)

  /** Devices and hierarchy: the phases that build the remap. */
  method ImportPlaces(db: Database, env: Envelope, mode: Mode, mint: Mint) returns (r: Result<Places, Error>)
    requires UniqueMacs(db.devices)
    modifies db
    ensures
      var st := old(db.Contents());
      var job := HierarchyJob(st, env, mode, mint);
      match Run(job, Document(env))
      case Err(e) => r == Err(e)
      case Ok(h) =>
        && r == Ok(Places(IdRemap(st, env, h), |DeviceRemap(st.devices, env.devices)|, |h.remap|))
        && db.Contents() == Standing(job, h)
    ensures db.committed == old(db.committed)
  {
    hide Run, RenameAll, DeviceRemap, HierarchyJob, Base, Wiped, Document, Standing, RoomSteps, GroupSteps;
    var remap := db.ImportDevices(env.devices);
    PlacesJob(old(db.Contents()), env, mode, mint, db.Contents());
    var hierarchy := db.ImportHierarchy(env.rooms, env.groups, mode, mint.hierarchy);
    if hierarchy.Err? {
      return Err(hierarchy.error);
    }
    r := Ok(Places(remap + hierarchy.value, |remap|, |hierarchy.value|));
  }

  datatype Tallies = Tallies(schedules: Counts, actions: Counts, scenes: Counts)

  /** The three tables matched by id, with the finished remap. */
  method ImportItems(db: Database, env: Envelope, mode: Mode, user: Id, mint: Mint, remap: map<Id, Id>)
      returns (r: Result<Tallies, Error>)
    modifies db`schedules, db`actions, db`scenes
    ensures
      var st := old(db.Contents());
      var s := LoadSchedules(st, env, mode, user, mint, remap);
      var a := LoadActions(st, env, mode, user, mint, remap);
      var c := LoadScenes(st, env, mode, user, mint);
      if s.Err? then r == Err(s.error)
      else if a.Err? then r == Err(a.error)
      else if c.Err? then r == Err(c.error)
      else
        && r == Ok(Tallies(CountsOf(s.value), CountsOf(a.value), CountsOf(c.value)))
        && db.schedules == Kept(st.schedules, mode) + s.value.rows
        && db.actions == Kept(st.actions, mode) + a.value.rows
        && db.scenes == Kept(st.scenes, mode) + c.value.rows
  {
    var schedules := ImportSchedules(db, env.schedules, mode, user, mint.schedules, remap);
    if schedules.Err? {
      return Err(schedules.error);
    }
    var actions := ImportQuickActions(db, env.actions, mode, user, mint.actions, remap);
    if actions.Err? {
      return Err(actions.error);
    }
    var scenes := ImportScenes(db, env.scenes, mode, user, mint.scenes);
    if scenes.Err? {
      return Err(scenes.error);
    }
    r := Ok(Tallies(schedules.value, actions.value, scenes.value));
  }

  /** A restore, phase by phase: the first phase that fails decides it. */
  lemma RestoreByPhases(st: Store, env: Envelope, mode: Mode, user: Id, mint: Mint)
    ensures env.version != BACKUP_VERSION ==> Restore(st, env, mode, user, mint) == Err(UnsupportedVersion)
    ensures env.version == BACKUP_VERSION ==>
      match Run(HierarchyJob(st, env, mode, mint), Document(env))
      case Err(e) => Restore(st, env, mode, user, mint) == Err(e)
      case Ok(h) =>
        var remap := IdRemap(st, env, h);
        var s := LoadSchedules(st, env, mode, user, mint, remap);
        var a := LoadActions(st, env, mode, user, mint, remap);
        var c := LoadScenes(st, env, mode, user, mint);
        Restore(st, env, mode, user, mint) ==
          if s.Err? then Err(s.error) else if a.Err? then Err(a.error) else if c.Err? then Err(c.error)
          else Ok(Assemble(st, env, mode, mint, h, s.value, a.value, c.value))
  {
    hide Run, LoadSchedules, LoadActions, LoadScenes, Assemble, HierarchyJob, IdRemap, Document;
  }

  /** The finished session is the assembled store. */
  lemma AssembledFromPhases(st: Store, env: Envelope, mode: Mode, mint: Mint, h: Hier,
                            s: Load<Schedule>, a: Load<QuickAction>, c: Load<Scene>)
    ensures
      var job := HierarchyJob(st, env, mode, mint);
      Assemble(st, env, mode, mint, h, s, a, c) ==
        (Standing(job, h).(schedules := Kept(st.schedules, mode) + s.rows, actions := Kept(st.actions, mode) + a.rows,
                           scenes := Kept(st.scenes, mode) + c.rows),
         Report(|DeviceRemap(st.devices, env.devices)|, |h.remap|, CountsOf(s), CountsOf(a), CountsOf(c)))
  {
  }

  lemma StandingItems(st: Store, env: Envelope, mode: Mode, mint: Mint, h: Hier)
    ensures
      var after := Standing(HierarchyJob(st, env, mode, mint), h);
      after.schedules == st.schedules && after.actions == st.actions && after.scenes == st.scenes
  {
  }

  lemma SameItems(st: Store, other: Store, env: Envelope, mode: Mode, user: Id, mint: Mint, remap: map<Id, Id>)
    requires other.schedules == st.schedules && other.actions == st.actions && other.scenes == st.scenes
    ensures LoadSchedules(other, env, mode, user, mint, remap) == LoadSchedules(st, env, mode, user, mint, remap)
    ensures LoadActions(other, env, mode, user, mint, remap) == LoadActions(st, env, mode, user, mint, remap)
    ensures LoadScenes(other, env, mode, user, mint) == LoadScenes(st, env, mode, user, mint)
  {
  }

  /** Every domain in turn, on the session. */
  method ImportAll(db: Database, env: Envelope, mode: Mode, user: Id, mint: Mint) returns (r: Result<Report, Error>)
    requires UniqueMacs(db.devices)
    modifies db
    ensures match Restore(old(db.Contents()), env, mode, user, mint)
            case Err(e) => r == Err(e)
            case Ok(done) => db.Contents() == done.0 && r == Ok(done.1)
    ensures db.committed == old(db.committed)
  {
    hide Restore, Run, LoadSchedules, LoadActions, LoadScenes, Assemble, HierarchyJob, IdRemap, Document, DeviceRemap;
    ghost var st := db.Contents();
    RestoreByPhases(st, env, mode, user, mint);
    if env.version != BACKUP_VERSION {
      return Err(UnsupportedVersion);
    }
    var places := ImportPlaces(db, env, mode, mint);
    if places.Err? {
      return Err(places.error);
    }
    var Places(remap, updated, remapped) := places.value;
    ghost var h := Run(HierarchyJob(st, env, mode, mint), Document(env)).value;
    StandingItems(st, env, mode, mint, h);
    SameItems(st, db.Contents(), env, mode, user, mint, remap);
    var items := ImportItems(db, env, mode, user, mint, remap);
    if items.Err? {
      return Err(items.error);
    }
    var Tallies(schedules, actions, scenes) := items.value;
    AssembledFromPhases(st, env, mode, mint, h, LoadSchedules(st, env, mode, user, mint, remap).value,
                        LoadActions(st, env, mode, user, mint, remap).value, LoadScenes(st, env, mode, user,
                            mint).value);
    r := Ok(Report(updated, remapped, schedules, actions, scenes));
  }

  datatype Response = Imported(report: Report) | BadRequest | ServerError

  /** The import route: everything is committed, or nothing of it is. */
  method ImportBackup(db: Database, env: Envelope, mode: Mode, user: Id, mint: Mint) returns (response: Response)
    requires UniqueMacs(db.devices) && db.committed == db.Contents()
    modifies db
    ensures match Restore(old(db.Contents()), env, mode, user, mint)
            case Ok(done) => response == Imported(done.1) && db.Contents() == done.0
            case Err(e) =>
              && response == (if e in {UnsupportedVersion, NoTargets, UnknownType} then BadRequest else ServerError)
              && db.Contents() == old(db.Contents())
    ensures db.committed == db.Contents()
  {
    var r := ImportAll(db, env, mode, user, mint);
    if r.Err? {
      db.Rollback();
      return if IsValueError(r.error) then BadRequest else ServerError;
    }
    db.Commit();
    response := Imported(r.value);
  }
}
