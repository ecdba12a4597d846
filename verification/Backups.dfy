/** What restoring a whole backup envelope computes. */
module Backups {
  import opened Prelude
  import opened Stores
  import opened Envelopes
  import opened Hierarchy
  import opened Tables

  // ---------- Devices

  ghost function Renamed(d: Device, items: seq<DeviceItem>): (r: Device)
    ensures r == d.(name := r.name)
    decreases |items|
  {
    if items == [] then d
    else
      var item := items[|items| - 1];
      if Truthy(item.mac) && item.mac.value == d.mac && Truthy(item.name) then d.(name := item.name.value)
      else Renamed(d, items[..|items| - 1])
  }

  ghost function RenameAll(devices: map<Id, Device>, items: seq<DeviceItem>): (r: map<Id, Device>)
    ensures SameHardware(devices, r)
  {
    map d | d in devices :: Renamed(devices[d], items)
  }

  /** Backup device id to current device id, for the devices known here by MAC. */
  ghost function DeviceRemap(devices: map<Id, Device>, items: seq<DeviceItem>): map<Id, Id>
    decreases |items|
  {
    if items == [] then map[]
    else
      var item, rest := items[|items| - 1], DeviceRemap(devices, items[..|items| - 1]);
      if Truthy(item.mac) && Local(devices, item.mac.value).Some? && Truthy(item.id) then
        rest[item.id.value := Local(devices, item.mac.value).value]
      else rest
  }

  // ---------- Targets

  function Subst(remap: map<Id, Id>, x: Id): Id {
    if x in remap then remap[x] else x
  }

  function SubstAll(remap: map<Id, Id>, xs: seq<Id>): (r: seq<Id>)
    ensures |r| == |xs| && forall k :: 0 <= k < |xs| ==> r[k] == Subst(remap, xs[k])
  {
    seq(|xs|, k requires 0 <= k < |xs| => Subst(remap, xs[k]))
  }

  function RemapId(remap: map<Id, Id>, id: Option<Id>): Option<Id> {
    if Truthy(id) then Some(Subst(remap, id.value)) else id
  }

  function RemapExcludes(remap: map<Id, Id>, excludes: Option<seq<Id>>): Option<seq<Id>> {
    if excludes.Some? && excludes.value != [] then Some(SubstAll(remap, excludes.value)) else excludes
  }

  function RemapTarget(remap: map<Id, Id>, t: Target): Target {
    t.(id := RemapId(remap, t.id), excludes := RemapExcludes(remap, t.excludes))
  }

  function ReadTarget(remap: map<Id, Id>, t: TargetItem): Result<Target, Error> {
    if t.kind.None? then Err(MissingKey)
    else if ParseTargetType(t.kind.value).None? then Err(UnknownType)
    else if t.state.None? then Err(MissingKey)
    else Ok(Target(ParseTargetType(t.kind.value).value, RemapId(remap, t.id), RemapExcludes(remap, t.excludes),
                   t.state.value))
  }

  function ReadTargets(remap: map<Id, Id>, items: seq<TargetItem>): (r: Result<seq<Target>, Error>)
    ensures r.Ok? ==> |r.value| == |items|
    decreases |items|
  {
    if items == [] then Ok([])
    else
      var front :- ReadTargets(remap, items[..|items| - 1]);
      var last :- ReadTarget(remap, items[|items| - 1]);
      Ok(front + [last])
  }

  function ReadTrigger(t: TriggerItem): Result<Trigger, Error> {
    if t.kind.None? then Err(MissingKey)
    else if ParseTriggerType(t.kind.value).None? then Err(UnknownType)
    else Ok(Trigger(ParseTriggerType(t.kind.value).value, t.cron, t.offset))
  }

  function ReadTriggers(items: seq<TriggerItem>): (r: Result<seq<Trigger>, Error>)
    ensures r.Ok? ==> |r.value| == |items|
    decreases |items|
  {
    if items == [] then Ok([])
    else
      var front :- ReadTriggers(items[..|items| - 1]);
      var last :- ReadTrigger(items[|items| - 1]);
      Ok(front + [last])
  }

  // ---------- Schedules, quick actions, scenes

  function NameError(name: Option<string>): Option<Error> {
    if name.None? then Some(MissingKey) else None
  }

  function ReadSchedule(remap: map<Id, Id>, item: ScheduleItem): Result<Schedule, Error> {
    var triggers :- ReadTriggers(item.triggers);
    var targets :- ReadTargets(remap, item.targets);
    Ok(Schedule(OrElse(item.name, ""), OrElse(item.enabled, true), OrElse(item.priority, 0), triggers, targets))
  }

  function ReadAction(remap: map<Id, Id>, item: ActionItem): Result<QuickAction, Error> {
    var targets :- ReadTargets(remap, item.targets);
    Ok(QuickAction(OrElse(item.name, ""), item.icon, OrElse(item.sortOrder, 0), targets))
  }

  function ScheduleEntry(remap: map<Id, Id>, item: ScheduleItem): Entry<Schedule> {
    Entry(item.id, NameError(item.name), ReadSchedule(remap, item))
  }

  function ActionEntry(remap: map<Id, Id>, item: ActionItem): Entry<QuickAction> {
    Entry(item.id, if item.targets == [] then Some(NoTargets) else NameError(item.name), ReadAction(remap, item))
  }

  function SceneEntry(item: SceneItem): Entry<Scene> {
    Entry(item.id, NameError(item.name),
          Ok(Scene(OrElse(item.name, ""), item.red, item.green, item.blue, item.temp, OrElse(item.brightness, 100))))
  }

  function ScheduleEntries(remap: map<Id, Id>, items: seq<ScheduleItem>): (r: seq<Entry<Schedule>>)
    ensures |r| == |items| && forall k :: 0 <= k < |items| ==> r[k] == ScheduleEntry(remap, items[k])
  {
    seq(|items|, k requires 0 <= k < |items| => ScheduleEntry(remap, items[k]))
  }

  function ActionEntries(remap: map<Id, Id>, items: seq<ActionItem>): (r: seq<Entry<QuickAction>>)
    ensures |r| == |items| && forall k :: 0 <= k < |items| ==> r[k] == ActionEntry(remap, items[k])
  {
    seq(|items|, k requires 0 <= k < |items| => ActionEntry(remap, items[k]))
  }

  function SceneEntries(items: seq<SceneItem>): (r: seq<Entry<Scene>>)
    ensures |r| == |items| && forall k :: 0 <= k < |items| ==> r[k] == SceneEntry(items[k])
  {
    seq(|items|, k requires 0 <= k < |items| => SceneEntry(items[k]))
  }

  // ---------- The whole restore

  datatype Counts = Counts(created: nat, updated: nat)
  datatype Report = Report(devicesUpdated: nat, remapped: nat, schedules: Counts, actions: Counts, scenes: Counts)

  /** The ids drawn for rows whose item has none, by table and position. */
  datatype Mint = Mint(hierarchy: nat -> Id, schedules: nat -> Id, actions: nat -> Id, scenes: nat -> Id)

  ghost function Unplaced(devices: map<Id, Device>): (r: map<Id, Device>)
    ensures SameHardware(devices, r)
  {
    map d | d in devices :: devices[d].(room := None, zone := None)
  }

  /** No hierarchy left, and no device placed. */
  ghost function Wiped(st: Store): Store {
    st.(devices := Unplaced(st.devices), rooms := map[], zones := map[], groups := map[])
  }

  /** The store a hierarchy import starts from: devices renamed, and in replace mode no hierarchy left. */
  ghost function Base(st: Store, env: Envelope, mode: Mode): Store {
    var renamed := st.(devices := RenameAll(st.devices, env.devices));
    if mode.Replace? then Wiped(renamed) else renamed
  }

  ghost function HierarchyJob(st: Store, env: Envelope, mode: Mode, mint: Mint): Job {
    Job(Base(st, env, mode), mode, mint.hierarchy)
  }

  /** The merged remap: hierarchy ids are added after, and over, device ids. */
  ghost function IdRemap(st: Store, env: Envelope, h: Hier): map<Id, Id> {
    DeviceRemap(st.devices, env.devices) + h.remap
  }

  function Kept<V>(table: map<Id, V>, mode: Mode): map<Id, V> {
    if mode.Replace? then map[] else table
  }

  ghost function CountsOf<V>(l: Load<V>): Counts {
    Counts(l.created, l.updated)
  }

  /** The three tables matched by id, given the remap. */
  ghost function LoadSchedules(st: Store, env: Envelope, mode: Mode, user: Id, mint: Mint, remap: map<Id, Id>):
      Result<Load<Schedule>, Error>
  {
    LoadAll(Kept(st.schedules, mode), mode, user, mint.schedules, ScheduleEntries(remap, env.schedules))
  }

  ghost function LoadActions(st: Store, env: Envelope, mode: Mode, user: Id, mint: Mint, remap: map<Id, Id>):
      Result<Load<QuickAction>, Error>
  {
    LoadAll(Kept(st.actions, mode), mode, user, mint.actions, ActionEntries(remap, env.actions))
  }

  ghost function LoadScenes(st: Store, env: Envelope, mode: Mode, user: Id, mint: Mint): Result<Load<Scene>, Error> {
    LoadAll(Kept(st.scenes, mode), mode, user, mint.scenes, SceneEntries(env.scenes))
  }

  /** The store and the report once every table is loaded. */
  ghost function Assemble(st: Store, env: Envelope, mode: Mode, mint: Mint, h: Hier,
                          schedules: Load<Schedule>, actions: Load<QuickAction>, scenes: Load<Scene>): (Store, Report)
  {
    var job := HierarchyJob(st, env, mode, mint);
    (Store(PlaceAll(job.base.devices, h.log), Rooms(job, h), Zones(job, h), Groups(job, h),
           Kept(st.schedules, mode) + schedules.rows, Kept(st.actions, mode) + actions.rows, Kept(st.scenes,
               mode) + scenes.rows),
     Report(|DeviceRemap(st.devices, env.devices)|, |h.remap|, CountsOf(schedules), CountsOf(actions),
            CountsOf(scenes)))
  }

  /** Devices, then hierarchy, then schedules, quick actions and scenes with the merged remap. */
  ghost function Restore(st: Store, env: Envelope, mode: Mode, user: Id, mint: Mint): Result<(Store, Report), Error> {
    if env.version != BACKUP_VERSION then Err(UnsupportedVersion)
    else
      var h :- Run(HierarchyJob(st, env, mode, mint), Document(env));
      var remap := IdRemap(st, env, h);
      var schedules :- LoadSchedules(st, env, mode, user, mint, remap);
      var actions :- LoadActions(st, env, mode, user, mint, remap);
      var scenes :- LoadScenes(st, env, mode, user, mint);
      Ok(Assemble(st, env, mode, mint, h, schedules, actions, scenes))
  }

  /** When a restore succeeds, and what it is made of. */
  lemma RestoreParts(st: Store, env: Envelope, mode: Mode, user: Id, mint: Mint, h: Hier)
    requires env.version == BACKUP_VERSION && Run(HierarchyJob(st, env, mode, mint), Document(env)) == Ok(h)
    ensures
      var remap := IdRemap(st, env, h);
      var s := LoadSchedules(st, env, mode, user, mint, remap);
      var a := LoadActions(st, env, mode, user, mint, remap);
      var c := LoadScenes(st, env, mode, user, mint);
      && (Restore(st, env, mode, user, mint).Ok? <==> s.Ok? && a.Ok? && c.Ok?)
      && (s.Ok? && a.Ok? && c.Ok? ==>
            Restore(st, env, mode, user, mint) == Ok(Assemble(st, env, mode, mint, h, s.value, a.value, c.value)))
  {
  }

  // ---------- Naming the parts of a successful restore

  ghost function HierOf(st: Store, env: Envelope, mode: Mode, user: Id, mint: Mint): Hier
    requires Restore(st, env, mode, user, mint).Ok?
  {
    Run(HierarchyJob(st, env, mode, mint), Document(env)).value
  }

  ghost function RemapOf(st: Store, env: Envelope, mode: Mode, user: Id, mint: Mint): map<Id, Id>
    requires Restore(st, env, mode, user, mint).Ok?
  {
    IdRemap(st, env, HierOf(st, env, mode, user, mint))
  }

  ghost function After(st: Store, env: Envelope, mode: Mode, user: Id, mint: Mint): Store
    requires Restore(st, env, mode, user, mint).Ok?
  {
    Restore(st, env, mode, user, mint).value.0
  }

  /** A successful restore is assembled from its parts. */
  lemma RestoredParts(st: Store, env: Envelope, mode: Mode, user: Id, mint: Mint)
    requires Restore(st, env, mode, user, mint).Ok?
    ensures
      var h, remap := HierOf(st, env, mode, user, mint), RemapOf(st, env, mode, user, mint);
      var s := LoadSchedules(st, env, mode, user, mint, remap);
      var a := LoadActions(st, env, mode, user, mint, remap);
      var c := LoadScenes(st, env, mode, user, mint);
      && env.version == BACKUP_VERSION
      && Run(HierarchyJob(st, env, mode, mint), Document(env)) == Ok(h) && remap == IdRemap(st, env, h)
      && s.Ok? && a.Ok? && c.Ok?
      && Restore(st, env, mode, user, mint).value == Assemble(st, env, mode, mint, h, s.value, a.value, c.value)
  {
    hide Run, LoadSchedules, LoadActions, LoadScenes, Assemble, HierarchyJob, IdRemap, Document;
  }
}
