/** Small stores on which the conditions of the theorems fail or hold. */
module Witnesses {
  import opened Prelude
  import opened Stores
  import opened Envelopes
  import opened Backups
  import opened Exports
  import opened RestoreExport
  import opened Meaning
  import opened Hierarchy
  import opened MergeSuccess
  import opened MergeMeaning
  import opened HierarchyFacts
  import opened ImportPlans
  import opened RestoreOutcomes

  /** A store with one device, in a zone that need not exist, and nothing else. */
  function Lone(id: Id, mac: Mac, zone: Option<Id>): Store {
    Store(map[id := Device(mac, "lamp", None, zone)], map[], map[], map[], map[], map[], map[])
  }

  /** Two installations whose different devices share an id: a target on that device does not keep its
      meaning, however sound the two stores are. */
  lemma LentId(user: Id)
    ensures
      var src, dst, t := Lone("d", "aa", None), Lone("d", "bb", None), Target(OneDevice, Some("d"), None, "");
      Valid(src) && Valid(dst) && WellPlaced(src) && Apart(src) && !Safe(src, dst, t) && !Preserved(src, dst, user, t)
  {
    var src, dst, t := Lone("d", "aa", None), Lone("d", "bb", None), Target(OneDevice, Some("d"), None, "");
    KeepsIsSafe(src, dst, t);
    TargetMeaning(src, dst, user, t);
    hide Preserved, Keeps;
    assert src.devices["d"].mac == "aa" && dst.devices["d"].mac == "bb";
    assert Local(dst.devices, "aa").None?;
  }

  /** A device with no room and a zone that does not exist: the store is valid, and a target on that zone
      loses the device, even on an installation that is the same. */
  lemma DanglingZone(user: Id)
    ensures
      var st, t := Lone("d", "aa", Some("z")), Target(OneZone, Some("z"), None, "");
      Valid(st) && Apart(st) && !WellPlaced(st) && !Preserved(st, st, user, t)
  {
    var st, t := Lone("d", "aa", Some("z")), Target(OneZone, Some("z"), None, "");
    TargetMeaning(st, st, user, t);
    hide Preserved;
    LocalIs(st.devices, "d");
    assert Belongs(st, OneZone, "z", "d") && !ShownIn(st, OneZone, Lands(st, st, "z"), "d");
  }

  function TwinZones(): Store {
    Store(map[], map["r" := Keyed("Hall", Look(None, 0))],
          map["y" := Keyed(ZoneKey("Desk", "r"), Look(None, 0)), "z" := Keyed(ZoneKey("Desk", "r"), Look(None, 1))],
          map[], map[], map[], map[])
  }

  /** A valid store whose own export cannot be merged back into it: its room has two zones of one name. */
  lemma TwinZonesDoNotMerge(env: Envelope, user: Id, mint: Mint)
    requires IsExport(TwinZones(), env)
    ensures Valid(TwinZones()) && !UniqueZones(TwinZones()) && Restore(TwinZones(), env, Merge, user, mint).Err?
  {
    hide IsExport, Restore;
    var st := TwinZones();
    assert st.zones["y"].key == st.zones["z"].key && "y" != "z";
    MergeOwnExport(st, env, user, mint);
  }

  /** One device in one room. */
  function Home(d: Id, room: Id): Store {
    Store(map[d := Device("aa", "lamp", Some(room), None)], map[room := Keyed("Hall", Look(None, 0))],
          map[], map[], map[], map[], map[])
  }

  function HomeExport(d: Id, room: Id): Envelope {
    Envelope(BACKUP_VERSION, [DeviceItem(Some(d), Some("aa"), Some("lamp"))],
             [RoomItem(Some(room), Some("Hall"), None, Some(0), ["aa"], [])], [], [], [], [])
  }

  lemma HomeIsExported(d: Id, room: Id)
    requires d != "" && room != ""
    ensures Valid(Home(d, room)) && UniqueZones(Home(d, room)) && IsExport(Home(d, room), HomeExport(d, room))
  {
    var st, env := Home(d, room), HomeExport(d, room);
    assert st.devices[d].mac == "aa";
    assert MacsOf(st, UnzonedIn(st, room)) == {"aa"} by {
      assert d in UnzonedIn(st, room);
    }
    assert env.rooms[0].macs[0] == "aa";
    assert Lists(env.rooms[0].macs, MacsOf(st, UnzonedIn(st, room)));
    assert env.devices[0].id == Some(d) && env.rooms[0].id == Some(room);
  }

  lemma HomesAreCompatible()
    ensures
      var src, dst := Home("d", "r"), Home("e", "q");
      AllHaveTargets(src.actions) && Compatible(src, dst) && OnlyOf(src, RoomKind, "r")
          && SeatOf(src, dst, RoomKind, "r") == "q"
  {
    var src, dst := Home("d", "r"), Home("e", "q");
    assert dst.rooms["q"].key == "Hall" && src.rooms["r"].key == "Hall";
    assert Hits(dst.rooms, "Hall") == {"q"};
    assert SeatedZones(src, dst) == map[];
  }

  /** Two homes with the same hall and lamp under different ids: a merge succeeds and remaps the room. */
  lemma HallsMeet(user: Id, mint: Mint)
    ensures
      var src, dst, env := Home("d", "r"), Home("e", "q"), HomeExport("d", "r");
      Merges(src, dst, env, user, mint) && Subst(RemapOf(dst, env, Merge, user, mint), "r") == "q"
  {
    hide IsExport, Restore, UniqueZones, Valid, Compatible, AllHaveTargets, OnlyOf, SeatOf, Home, HomeExport;
    var src, dst, env := Home("d", "r"), Home("e", "q"), HomeExport("d", "r");
    HomeIsExported("d", "r");
    HomeIsExported("e", "q");
    HomesAreCompatible();
    MergeSucceedsIffCompatible(src, dst, env, user, mint);
    MergedRow(src, dst, env, user, mint, RoomKind, "r");
  }

  const NOTHING: Store := Store(map[], map[], map[], map[], map[], map[], map[])

  function GhostRoom(): Envelope {
    Envelope(BACKUP_VERSION, [], [RoomItem(None, Some("Ghost Room"), None, Some(0), ["zz"], [])], [], [], [], [])
  }

  lemma GhostPlan(job: Job, doc: seq<Step>)
    requires job.base.rooms == map[] && doc == [RoomStep(GhostRoom().rooms[0])]
    ensures IsPlan(job, doc, [job.mint(0)])
  {
    var rows := [job.mint(0)];
    assert NameAt(doc, rows, 0) == Name(RoomKind, "Ghost Room", "");
    assert Stored(job, doc, rows, 0);
  }

  lemma GhostRun(job: Job, doc: seq<Step>)
    requires job.base.rooms == map[] && doc == [RoomStep(GhostRoom().rooms[0])] && Run(job, doc).Ok?
    requires RowOf(job, doc, 0) == job.mint(0)
    ensures Rooms(job, Run(job, doc).value) == map[job.mint(0) := Keyed("Ghost Room", Look(None, 0))]
  {
    hide RowFor;
    assert doc[..0] == [];
  }

  /** A room that brings no id, with a device that is not known here: it is created under the id drawn for it. */
  lemma GhostRoomIsImported(mode: Mode, user: Id, mint: Mint)
    ensures
      var r := Restore(NOTHING, GhostRoom(), mode, user, mint);
      r.Ok? && r.value.0.rooms == map[mint.hierarchy(0) := Keyed("Ghost Room", Look(None, 0))]
  {
    hide Restore, Run, RowOf, IsPlan;
    var env := GhostRoom();
    var job, doc := HierarchyJob(NOTHING, env, mode, mint), Document(env);
    assert doc == [RoomStep(env.rooms[0])];
    GhostPlan(job, doc);
    assert ItemFaults(NOTHING, env, mode, mint) == [];
    RestoreEnds(NOTHING, env, mode, user, mint);
    RestoredParts(NOTHING, env, mode, user, mint);
    ImportsIffPlanned(job, doc, [mint.hierarchy(0)]);
    GhostRun(job, doc);
  }
}
