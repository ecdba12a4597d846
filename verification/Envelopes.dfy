/** The backup envelope as it arrives: every field may be missing, enumerations are still text. */
module Envelopes {
  import opened Prelude
  import opened Stores

  datatype Mode = Merge | Replace

  datatype DeviceItem = DeviceItem(id: Option<Id>, mac: Option<Mac>, name: Option<string>)
  datatype ZoneItem = ZoneItem(id: Option<Id>, name: Option<string>, icon: Option<string>, sortOrder: Option<int>,
                               macs: seq<Mac>)
  datatype RoomItem = RoomItem(id: Option<Id>, name: Option<string>, icon: Option<string>, sortOrder: Option<int>,
                               macs: seq<Mac>, zones: seq<ZoneItem>)
  datatype GroupItem = GroupItem(id: Option<Id>, name: Option<string>, icon: Option<string>, sortOrder: Option<int>,
                                 macs: seq<Mac>)
  datatype TriggerItem = TriggerItem(kind: Option<string>, cron: Option<string>, offset: Option<int>)
  datatype TargetItem = TargetItem(kind: Option<string>, id: Option<Id>, excludes: Option<seq<Id>>, state: Option<Json>)
  datatype ScheduleItem = ScheduleItem(id: Option<Id>, name: Option<string>, enabled: Option<bool>,
                                       priority: Option<int>,
                                       triggers: seq<TriggerItem>, targets: seq<TargetItem>)
  datatype ActionItem = ActionItem(id: Option<Id>, name: Option<string>, icon: Option<string>, sortOrder: Option<int>,
                                   targets: seq<TargetItem>)
  datatype SceneItem = SceneItem(id: Option<Id>, name: Option<string>, red: Option<int>, green: Option<int>,
                                 blue: Option<int>, temp: Option<int>, brightness: Option<int>)

  datatype Envelope = Envelope(
    version: int,
    devices: seq<DeviceItem>,
    rooms: seq<RoomItem>,
    groups: seq<GroupItem>,
    schedules: seq<ScheduleItem>,
    actions: seq<ActionItem>,
    scenes: seq<SceneItem>)

  const BACKUP_VERSION := 1

  /** Why an import fails. The first three are Python ValueErrors, which the route turns into a
      400 response; the others propagate as server errors. */
  datatype Error = UnsupportedVersion | NoTargets | UnknownType | MissingKey | Collision | ManyRows

  predicate IsValueError(e: Error) {
    e.UnsupportedVersion? || e.NoTargets? || e.UnknownType?
  }

  function TriggerTypeName(t: TriggerType): string {
    match t
    case Cron => "cron"
    case Sunrise => "sunrise"
    case Sunset => "sunset"
    case Webhook => "webhook"
  }

  function TargetTypeName(t: TargetType): string {
    match t
    case OneDevice => "device"
    case OneRoom => "room"
    case OneZone => "zone"
    case OneGroup => "group"
    case All => "all"
    case AllExcept => "all_except"
  }

  function ParseTriggerType(s: string): (r: Option<TriggerType>)
    ensures forall t :: TriggerTypeName(t) == s <==> r == Some(t)
  {
    if s == "cron" then Some(Cron)
    else if s == "sunrise" then Some(Sunrise)
    else if s == "sunset" then Some(Sunset)
    else if s == "webhook" then Some(Webhook)
    else None
  }

  function ParseTargetType(s: string): (r: Option<TargetType>)
    ensures forall t :: TargetTypeName(t) == s <==> r == Some(t)
  {
    if s == "device" then Some(OneDevice)
    else if s == "room" then Some(OneRoom)
    else if s == "zone" then Some(OneZone)
    else if s == "group" then Some(OneGroup)
    else if s == "all" then Some(All)
    else if s == "all_except" then Some(AllExcept)
    else None
  }
}
