/** From a payload to the command a bulb receives, and who receives which when a schedule or a quick
    action drives several devices. */
module Dispatch {
  import opened Prelude
  import opened StateValidator

  type Id = string

  // ---------- Pilot arguments

  /** A brightness level: computed from a percentage, or handed on as given. */
  datatype Level = Scaled(level: int) | Raw(value: Json)

  /** The keyword arguments of a pilot message; those left out are None. A scene argument may itself be
      Python's None. */
  datatype Pilot = Pilot(
    brightness: Option<Level>,
    colortemp: Option<Json>,
    scene: Option<Option<Json>>,
    rgb: Option<(Json, Json, Json)>,
    warmWhite: Option<Json>,
    coldWhite: Option<Json>,
    speed: Option<Json>,
    state: Option<Json>)

  const EMPTY: Pilot := Pilot(None, None, None, None, None, None, None, None)

  predicate Truth(v: Json) {
    match v
    case Bool(b) => b
    case Int(n) => n != 0
    case Opaque(_, truthy) => truthy
  }

  /** Python's int(n * 255 / 100), which truncates toward zero. */
  function Brightness(n: int): int {
    if n >= 0 then n * 255 / 100 else -(-n * 255 / 100)
  }

  /** A number to compute with; Python's booleans are numbers. */
  function Number(v: Json): Option<int> {
    match v
    case Bool(b) => Some(if b then 1 else 0)
    case Int(n) => Some(n)
    case Opaque(_, _) => None
  }

  predicate Computable(s: Payload, key: string) {
    key in s ==> Number(s[key]).Some?
  }

  /** `dimming` is a percentage; so is a `brightness` up to 100, which has the last word. */
  function TranslateLevel(s: Payload): Option<Level>
    requires Computable(s, "dimming") && Computable(s, "brightness")
  {
    if "brightness" in s then
      var n := Number(s["brightness"]).value;
      Some(if n <= 100 then Scaled(Brightness(n)) else Raw(s["brightness"]))
    else if "dimming" in s then Some(Scaled(Brightness(Number(s["dimming"]).value)))
    else None
  }

  function TranslateScene(s: Payload): Option<Option<Json>> {
    if "sceneId" in s && Truth(s["sceneId"]) then Some(Some(s["sceneId"]))
    else if "scene" in s then Some(Some(s["scene"]))
    else if "sceneId" in s then Some(None)
    else None
  }

  /** The pilot arguments of a payload, unless a level is no number. */
  function Translate(s: Payload): Option<Pilot> {
    if !Computable(s, "dimming") || !Computable(s, "brightness") then None
    else
      Some(Pilot(
        TranslateLevel(s),
        if "colortemp" in s then Get(s, "colortemp") else Get(s, "temp"),
        TranslateScene(s),
        if HasRgb(s) then Some((s["r"], s["g"], s["b"])) else None,
        Get(s, "w"), Get(s, "c"), Get(s, "speed"), Get(s, "state")))
  }

  method FillModes(s: Payload, p: Pilot) returns (translated: Pilot)
    requires p == EMPTY.(brightness := p.brightness)
    ensures translated == p.(
              colortemp := if "colortemp" in s then Get(s, "colortemp") else Get(s, "temp"),
              scene := TranslateScene(s),
              rgb := if HasRgb(s) then Some((s["r"], s["g"], s["b"])) else None)
  {
    translated := p;
    if "temp" in s {
      translated := translated.(colortemp := Some(s["temp"]));
    }
    if "colortemp" in s {
      translated := translated.(colortemp := Some(s["colortemp"]));
    }
    if "sceneId" in s || "scene" in s {
      translated := translated.(scene := Some(if "sceneId" in s && Truth(s["sceneId"]) then Some(s["sceneId"])
                                              else Get(s, "scene")));
    }
    if "r" in s && "g" in s && "b" in s {
      translated := translated.(rgb := Some((s["r"], s["g"], s["b"])));
    }
  }

  method FillExtras(s: Payload, p: Pilot) returns (translated: Pilot)
    requires p.warmWhite.None? && p.coldWhite.None? && p.speed.None? && p.state.None?
    ensures translated == p.(warmWhite := Get(s, "w"), coldWhite := Get(s, "c"), speed := Get(s, "speed"),
                             state := Get(s, "state"))
  {
    translated := p;
    if "w" in s {
      translated := translated.(warmWhite := Some(s["w"]));
    }
    if "c" in s {
      translated := translated.(coldWhite := Some(s["c"]));
    }
    if "speed" in s {
      translated := translated.(speed := Some(s["speed"]));
    }
    if "state" in s {
      translated := translated.(state := Some(s["state"]));
    }
  }

  /** The translation as the program does it, filling in one argument after another. */
  method TranslateStateToPilotArgs(s: Payload) returns (r: Option<Pilot>)
    ensures r == Translate(s)
  {
    var translated := EMPTY;
    if "dimming" in s {
      var n := Number(s["dimming"]);
      if n.None? {
        return None;
      }
      translated := translated.(brightness := Some(Scaled(Brightness(n.value))));
    }
    if "brightness" in s {
      var n := Number(s["brightness"]);
      if n.None? {
        return None;
      }
      translated := translated.(brightness := Some(if n.value <= 100 then Scaled(Brightness(n.value))
                                                   else Raw(s["brightness"])));
    }
    translated := FillModes(s, translated);
    translated := FillExtras(s, translated);
    r := Some(translated);
  }

  // ---------- Validated payloads survive translation

  /** Over percentages, brightness runs from 0 to 255 and is strictly increasing. */
  lemma BrightnessIncreases(m: int, n: int)
    requires 0 <= m < n <= 100
    ensures 0 <= Brightness(m) < Brightness(n) <= 255
    ensures Brightness(0) == 0 && Brightness(100) == 255
  {
  }

  /** On percentages, brightness is the exact share of 255, rounded down. */
  lemma BrightnessIsRoundedDown(n: int)
    requires n >= 0
    ensures 100 * Brightness(n) <= 255 * n < 100 * (Brightness(n) + 1)
    ensures Brightness(-n) == -Brightness(n)
  {
  }

  /** A level must be a number, and a boolean is the number 0 or 1; nothing else can go wrong. */
  lemma LevelsAreNumbers(s: Payload)
    ensures Translate(s) == None <==>
              ("dimming" in s && s["dimming"].Opaque?) || ("brightness" in s && s["brightness"].Opaque?)
    ensures Translate(s["dimming" := Bool(true)]) == Translate(s["dimming" := Int(1)])
    ensures Translate(s["dimming" := Bool(false)]) == Translate(s["dimming" := Int(0)])
  {
  }

  /** The arguments that are handed on as they are: each from its own key, and from no other. */
  lemma HandedOn(s: Payload, key: string, v: Json)
    requires Translate(s).Some? && key in {"w", "c", "speed", "state"}
    ensures
      var p := Translate(s).value;
      Translate(s[key := v]) == Some(
        match key
        case "w" => p.(warmWhite := Some(v))
        case "c" => p.(coldWhite := Some(v))
        case "speed" => p.(speed := Some(v))
        case _ => p.(state := Some(v)))
  {
  }

  /** Of two keys for one argument, `colortemp` has the last word over `temp`, ... */
  lemma ColortempHasTheLastWord(s: Payload, v: Json)
    requires Translate(s).Some? && "colortemp" in s
    ensures Translate(s).value.colortemp == Some(s["colortemp"]) && Translate(s["temp" := v]) == Translate(s)
  {
  }

  /** ... `brightness` over `dimming`, ... */
  lemma BrightnessHasTheLastWord(s: Payload, v: Json)
    requires Translate(s).Some? && "brightness" in s && Number(v).Some?
    ensures Translate(s["dimming" := v]) == Translate(s)
    ensures s["brightness"].Int? ==>
              Translate(s).value.brightness ==
                Some(if s["brightness"].n <= 100 then Scaled(Brightness(s["brightness"].n)) else Raw(s["brightness"]))
  {
  }

  /** ... and a `sceneId` over `scene` if it counts as true; one that does not is as good as none. */
  lemma SceneIdHasTheLastWord(s: Payload, v: Json)
    requires Translate(s).Some? && "scene" in s && "sceneId" in s
    ensures s["sceneId"] == Bool(true) || (s["sceneId"].Int? && s["sceneId"].n != 0) ==>
              Translate(s).value.scene == Some(Some(s["sceneId"])) && Translate(s["scene" := v]) == Translate(s)
    ensures s["sceneId"] == Bool(false) || s["sceneId"] == Int(0) ==> Translate(s) == Translate(s - {"sceneId"})
  {
    assert (s - {"sceneId"})["scene"] == s["scene"];
  }

  /** What a payload in normal form, other than turning off, becomes. */
  ghost predicate Carries(p: Pilot, s: Payload) {
    && (p.rgb == if HasRgb(s) then Some((s["r"], s["g"], s["b"])) else None)
    && p.colortemp == Get(s, "temp")
    && (p.scene == if "scene" in s then Some(Some(s["scene"])) else None)
    && (if "dimming" in s then s["dimming"].Int? && p.brightness == Some(Scaled(Brightness(s["dimming"].n)))
        else p.brightness == None)
    && p.warmWhite == p.coldWhite == p.speed == p.state == None
  }

  lemma NormalKeys(s: Payload, key: string)
    requires IsNormal(s) && s != TURN_OFF && key !in {"r", "g", "b", "temp", "scene", "dimming"}
    ensures key !in s
  {
    assert key in s ==> key in s.Keys;
  }

  lemma NormalTranslates(s: Payload)
    requires IsNormal(s) && s != TURN_OFF
    ensures Translate(s).Some? && Carries(Translate(s).value, s)
  {
    NormalKeys(s, "brightness");
    NormalKeys(s, "colortemp");
    NormalKeys(s, "sceneId");
    NormalKeys(s, "w");
    NormalKeys(s, "c");
    NormalKeys(s, "speed");
    NormalKeys(s, "state");
  }

  /** A validated payload asks for at most one mode, at a level from 0 to 255. */
  lemma ValidatedPilotIsWellFormed(s: Payload)
    requires Validate(s).Ok? && !SaysOff(s)
    ensures
      && Translate(Validate(s).value).Some?
      && var p := Translate(Validate(s).value).value;
      && Count(p.rgb.Some?) + Count(p.colortemp.Some?) + Count(p.scene.Some?) <= 1
      && p != EMPTY
      && (p.brightness.Some? ==> p.brightness.value.Scaled? && 0 <= p.brightness.value.level <= 255)
  {
    var out := Validate(s).value;
    ResultIsNormal(s);
    OffIsNotValidated(s);
    NormalTranslates(out);
    if k :| k in out {
      assert k in out.Keys;
    }
  }

  lemma OffIsNotValidated(s: Payload)
    requires Validate(s).Ok? && !SaysOff(s)
    ensures Validate(s).value != TURN_OFF
  {
    var rgb, temp, scene, dimming := ResultSections(s);
    Sections(rgb, temp, scene, dimming);
    assert "turn_off" !in Validate(s).value.Keys;
    assert "turn_off" in TURN_OFF;
  }

  /** Nothing is lost in translation: different normal forms give different pilot arguments. */
  lemma TranslationIsInjective(s: Payload, t: Payload)
    requires IsNormal(s) && IsNormal(t) && s != TURN_OFF && t != TURN_OFF
    requires Translate(s) == Translate(t)
    ensures s == t
  {
    NormalTranslates(s);
    NormalTranslates(t);
    SameDimming(s, t);
    forall key ensures Get(s, key) == Get(t, key) {
      if key !in {"r", "g", "b", "temp", "scene", "dimming"} {
        NormalKeys(s, key);
        NormalKeys(t, key);
      }
    }
    assert forall key :: key in s <==> Get(s, key).Some?;
    assert forall key :: key in t <==> Get(t, key).Some?;
  }

  lemma SameDimming(s: Payload, t: Payload)
    requires IsNormal(s) && IsNormal(t) && s != TURN_OFF && t != TURN_OFF
    requires Translate(s).Some? && Carries(Translate(s).value, s) && Carries(Translate(s).value, t)
    ensures Get(s, "dimming") == Get(t, "dimming")
  {
    if "dimming" in s && "dimming" in t {
      var m, n := s["dimming"].n, t["dimming"].n;
      if m < n {
        BrightnessIncreases(m, n);
      } else if n < m {
        BrightnessIncreases(n, m);
      }
    }
  }

  // ---------- Commands

  datatype Command = TurnOff | TurnOn(pilot: Pilot) | Failed

  predicate Off(s: Payload) {
    "turn_off" in s && Truth(s["turn_off"])
  }

  function CommandOf(s: Payload): Command {
    if Off(s) then TurnOff
    else
      match Translate(s - {"turn_off"})
      case None => Failed
      case Some(p) => TurnOn(p)
  }

  /** A dictionary object, which its callers share. */
  class Dict {
    var entries: Payload

    constructor (entries: Payload)
      ensures this.entries == entries
    {
      this.entries := entries;
    }
  }

  /** Send one command. The turn_off key is popped from the caller's dictionary. */
  method ControlDevice(state: Dict) returns (command: Command)
    modifies state
    ensures command == CommandOf(old(state.entries))
    ensures state.entries == old(state.entries) - {"turn_off"}
  {
    var turnOff := "turn_off" in state.entries && Truth(state.entries["turn_off"]);
    state.entries := state.entries - {"turn_off"};
    if turnOff {
      return TurnOff;
    }
    var pilot := TranslateStateToPilotArgs(state.entries);
    command := if pilot.None? then Failed else TurnOn(pilot.value);
  }

  /** The command the `k`-th device of a schedule's target receives. */
  function SharedCommand(s: Payload, k: nat): Command {
    CommandOf(if k == 0 then s else s - {"turn_off"})
  }

  /** One target of a schedule: its devices are commanded in turn from one shared dictionary. The listed ids
      that exist, and no others, receive a command, as often as they are listed and in that order. */
  method ExecuteTarget(ids: seq<Id>, devices: set<Id>, state: Dict)
      returns (sent: seq<(Id, Command)>, ghost at: seq<nat>)
    modifies state
    ensures Picks(ids, devices, at) && |sent| == |at|
    ensures forall k :: 0 <= k < |sent| ==> sent[k] == (ids[at[k]], SharedCommand(old(state.entries), k))
  {
    hide Picks, SentFrom, SharedCommand, CommandOf;
    ghost var s := state.entries;
    sent, at := [], [];
    NothingPicked(ids[..0], devices);
    NothingSent(ids, s);
    for i := 0 to |ids|
      invariant Picks(ids[..i], devices, at) && SentFrom(ids, s, at, sent)
      invariant state.entries == if sent == [] then s else s - {"turn_off"}
    {
      PickNext(ids, devices, at, i);
      if ids[i] in devices {
        NextShared(s, |sent|);
        SendNext(ids, s, at, sent, i);
        var command := ControlDevice(state);
        sent, at := sent + [(ids[i], command)], at + [i];
      }
    }
    assert ids[..|ids|] == ids;
    AllSent(ids, s, at, sent);
  }

  /** The picked devices so far have received their commands from the shared dictionary. */
  ghost predicate SentFrom(ids: seq<Id>, s: Payload, at: seq<nat>, sent: seq<(Id, Command)>) {
    |sent| == |at| && forall k :: 0 <= k < |sent| ==> at[k] < |ids| && sent[k] == (ids[at[k]], SharedCommand(s, k))
  }

  lemma NothingSent(ids: seq<Id>, s: Payload)
    ensures SentFrom(ids, s, [], [])
  {
  }

  lemma SendNext(ids: seq<Id>, s: Payload, at: seq<nat>, sent: seq<(Id, Command)>, i: nat)
    requires SentFrom(ids, s, at, sent) && i < |ids|
    ensures SentFrom(ids, s, at + [i], sent + [(ids[i], SharedCommand(s, |sent|))])
  {
    hide SharedCommand;
  }

  lemma AllSent(ids: seq<Id>, s: Payload, at: seq<nat>, sent: seq<(Id, Command)>)
    requires SentFrom(ids, s, at, sent)
    ensures |sent| == |at|
    ensures forall k :: 0 <= k < |sent| ==> at[k] < |ids| && sent[k] == (ids[at[k]], SharedCommand(s, k))
  {
  }

  /** One target of a quick action: it is validated, and every device gets a copy of its own. */
  method ExecuteActionTarget(ids: seq<Id>, devices: set<Id>, stored: Payload)
      returns (r: Result<seq<(Id, Command)>, Problem>, ghost at: seq<nat>)
    ensures r.Err? <==> Validate(stored).Err?
    ensures r.Err? ==> r.error == Validate(stored).error
    ensures r.Ok? ==>
      && Picks(ids, devices, at) && |r.value| == |at|
      && forall k :: 0 <= k < |r.value| ==> r.value[k] == (ids[at[k]], CommandOf(Validate(stored).value))
  {
    at := [];
    var validated := ValidateControlState(stored);
    if validated.Err? {
      return Err(validated.error), at;
    }
    var sent := [];
    for i := 0 to |ids|
      invariant Picks(ids[..i], devices, at) && |sent| == |at|
      invariant forall k :: 0 <= k < |sent| ==> sent[k] == (ids[at[k]], CommandOf(validated.value))
    {
      PickNext(ids, devices, at, i);
      if ids[i] in devices {
        var copy := new Dict(validated.value);
        var command := ControlDevice(copy);
        sent, at := sent + [(ids[i], command)], at + [i];
      }
    }
    assert ids[..|ids|] == ids;
    r := Ok(sent);
  }

  lemma NextShared(s: Payload, k: nat)
    ensures SharedCommand(s, k) == CommandOf(if k == 0 then s else s - {"turn_off"})
    ensures (s - {"turn_off"}) - {"turn_off"} == s - {"turn_off"}
  {
  }

  lemma NothingPicked(ids: seq<Id>, devices: set<Id>)
    requires ids == []
    ensures Picks(ids, devices, [])
  {
  }

  lemma PickNext(ids: seq<Id>, devices: set<Id>, at: seq<nat>, i: nat)
    requires i < |ids| && Picks(ids[..i], devices, at)
    ensures Picks(ids[..i + 1], devices, if ids[i] in devices then at + [i] else at)
  {
    var front, more := ids[..i], ids[..i + 1];
    forall k: nat | k < |more| && more[k] in devices ensures k in if ids[i] in devices then at + [i] else at {
      assert k < i ==> front[k] == more[k];
    }
  }

  function CommandsTo(sent: seq<(Id, Command)>, d: Id): nat {
    if sent == [] then 0
    else CommandsTo(sent[..|sent| - 1], d) + if sent[|sent| - 1].0 == d then 1 else 0
  }

  /** A device that exists receives as many commands as it is listed, and an id that does not exist none. */
  lemma {:induction false} CommandsPerDevice(ids: seq<Id>, devices: set<Id>, at: seq<nat>, sent: seq<(Id, Command)>,
                                             d: Id)
    requires Picks(ids, devices, at) && |sent| == |at| && forall k :: 0 <= k < |sent| ==> sent[k].0 == ids[at[k]]
    ensures CommandsTo(sent, d) == if d in devices then multiset(ids)[d] else 0
    decreases |ids|
  {
    if ids == [] {
      assert at == [];
    } else {
      var n := |ids| - 1;
      var front := ids[..n];
      assert ids == front + [ids[n]];
      LastPick(ids, devices, at);
      if ids[n] in devices {
        CommandsPerDevice(front, devices, at[..|at| - 1], sent[..|sent| - 1], d);
      } else {
        CommandsPerDevice(front, devices, at, sent, d);
      }
    }
  }

  lemma LastPick(ids: seq<Id>, devices: set<Id>, at: seq<nat>)
    requires Picks(ids, devices, at) && ids != []
    ensures
      var n := |ids| - 1;
      if ids[n] in devices then at != [] && at[|at| - 1] == n && Picks(ids[..n], devices, at[..|at| - 1])
      else Picks(ids[..n], devices, at)
  {
    var n := |ids| - 1;
    if ids[n] in devices {
      assert n in at;
      assert forall k :: 0 <= k < |at| - 1 ==> at[k] < at[|at| - 1];
      forall i: nat | i < n && ids[..n][i] in devices ensures i in at[..|at| - 1] {
        assert ids[i] in devices && i in at;
      }
    } else {
      forall j | 0 <= j < |at| ensures at[j] < n {
        assert ids[at[j]] in devices;
      }
      forall i: nat | i < n && ids[..n][i] in devices ensures i in at {
        assert ids[i] in devices;
      }
    }
  }

  /** Sharing shows: the devices of a schedule's target all receive the command it asks for exactly when
      it does not turn off or there is at most one of them. */
  lemma AllAlikeIff(s: Payload, n: nat)
    ensures (forall k: nat :: k < n ==> SharedCommand(s, k) == CommandOf(s)) <==> !Off(s) || n <= 1
  {
    if n > 1 && Off(s) {
      assert SharedCommand(s, 1) != TurnOff;
    }
    assert (s - {"turn_off"}) - {"turn_off"} == s - {"turn_off"};
  }

  /** A payload turns off exactly when its `turn_off` counts as true; one that counts as false is dropped. */
  lemma TurnsOffIff(s: Payload)
    ensures CommandOf(s) == TurnOff <==> "turn_off" in s && Truth(s["turn_off"])
    ensures CommandOf(s["turn_off" := Bool(true)]) == CommandOf(s["turn_off" := Int(1)]) == TurnOff
    ensures CommandOf(s["turn_off" := Bool(false)]) == CommandOf(s["turn_off" := Int(0)]) == CommandOf(s - {"turn_off"})
    ensures "turn_off" !in s ==> CommandOf(s["turn_off" := Bool(false)]) == CommandOf(s)
  {
    assert s["turn_off" := Bool(false)] - {"turn_off"} == s - {"turn_off"};
    assert s["turn_off" := Int(0)] - {"turn_off"} == s - {"turn_off"};
    assert (s - {"turn_off"}) - {"turn_off"} == s - {"turn_off"};
    if "turn_off" !in s {
      assert s - {"turn_off"} == s;
    }
  }

  /** A schedule that turns off a room of two devices turns one off and the other on. */
  lemma SecondDeviceTurnsOn()
    ensures SharedCommand(TURN_OFF, 0) == TurnOff && SharedCommand(TURN_OFF, 1) == TurnOn(EMPTY)
  {
    assert TURN_OFF - {"turn_off"} == map[];
  }
}
