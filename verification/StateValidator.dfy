/** Validation and normalisation of device control payloads. */
module StateValidator {
  import opened Prelude
  import opened Colours

  /** A JSON value; anything but booleans and integers is opaque, but for whether Python counts it as true. */
  datatype Json = Bool(b: bool) | Int(n: int) | Opaque(text: string, truthy: bool)

  type Payload = map<string, Json>

  datatype Problem =
    | PartialRgb
    | CombinedModes
    | NothingToDo
    | NotAnInteger(key: string)
    | OutOfRange(key: string)
    | Black
    | SceneNotAnInteger
    | UnknownScene(scene: int)

  const SCENES: int := 37

  const TURN_OFF: Payload := map["turn_off" := Bool(true)]

  predicate Holds(s: Payload, key: string, value: Json) {
    key in s && s[key] == value
  }

  predicate SaysOff(s: Payload) {
    Holds(s, "turn_off", Bool(true)) || Holds(s, "state", Bool(false))
  }

  predicate HasRgb(s: Payload) {
    "r" in s && "g" in s && "b" in s
  }

  predicate HasPartRgb(s: Payload) {
    ("r" in s || "g" in s || "b" in s) && !HasRgb(s)
  }

  predicate HasScene(s: Payload) {
    "scene" in s || "sceneId" in s
  }

  function Count(b: bool): int {
    if b then 1 else 0
  }

  function Modes(s: Payload): int {
    Count(HasRgb(s)) + Count("temp" in s) + Count(HasScene(s))
  }

  function CheckIntRange(s: Payload, key: string, lo: int, hi: int): Result<int, Problem>
    requires key in s
  {
    var v := s[key];
    if !v.Int? then Err(NotAnInteger(key))
    else if !(lo <= v.n <= hi) then Err(OutOfRange(key))
    else Ok(v.n)
  }

  function Colour(c: Rgb): Payload {
    map["r" := Int(c.r), "g" := Int(c.g), "b" := Int(c.b)]
  }

  function CheckRgb(s: Payload): Result<Payload, Problem>
    requires HasRgb(s)
  {
    var r :- CheckIntRange(s, "r", 0, 255);
    var g :- CheckIntRange(s, "g", 0, 255);
    var b :- CheckIntRange(s, "b", 0, 255);
    if r == 0 && g == 0 && b == 0 then Err(Black) else Ok(Colour(ClampEven(Rgb(r, g, b))))
  }

  function CheckTemp(s: Payload): Result<Payload, Problem>
    requires "temp" in s
  {
    var v :- CheckIntRange(s, "temp", 1000, 10000);
    Ok(map["temp" := Int(v)])
  }

  /** The `scene` key counts even when it holds nothing usable; `sceneId` only in its absence. */
  function SceneOf(s: Payload): Json
    requires HasScene(s)
  {
    if "scene" in s then s["scene"] else s["sceneId"]
  }

  function CheckScene(s: Payload): Result<Payload, Problem>
    requires HasScene(s)
  {
    var sid := SceneOf(s);
    if !sid.Int? then Err(SceneNotAnInteger)
    else if !(1 <= sid.n <= SCENES) then Err(UnknownScene(sid.n))
    else Ok(map["scene" := sid])
  }

  function CheckDimming(s: Payload): Result<Payload, Problem>
    requires "dimming" in s
  {
    var v :- CheckIntRange(s, "dimming", 0, 100);
    Ok(map["dimming" := Int(v)])
  }

  function Validate(s: Payload): Result<Payload, Problem> {
    if SaysOff(s) then Ok(TURN_OFF)
    else if HasPartRgb(s) then Err(PartialRgb)
    else if Modes(s) > 1 then Err(CombinedModes)
    else if Modes(s) == 0 && "dimming" !in s then Err(NothingToDo)
    else
      var rgb :- if HasRgb(s) then CheckRgb(s) else Ok(map[]);
      var temp :- if "temp" in s then CheckTemp(s) else Ok(map[]);
      var scene :- if HasScene(s) then CheckScene(s) else Ok(map[]);
      var dimming :- if "dimming" in s then CheckDimming(s) else Ok(map[]);
      Ok(rgb + temp + scene + dimming)
  }

  /** The validator, filling its result key by key. */
  method ValidateControlState(s: Payload) returns (r: Result<Payload, Problem>)
    ensures r == Validate(s)
  {
    if Holds(s, "turn_off", Bool(true)) || Holds(s, "state", Bool(false)) {
      return Ok(TURN_OFF);
    }
    var channels := Count("r" in s) + Count("g" in s) + Count("b" in s);
    if 0 < channels < 3 {
      return Err(PartialRgb);
    }
    var modes := Count(channels == 3) + Count("temp" in s) + Count(HasScene(s));
    if modes > 1 {
      return Err(CombinedModes);
    }
    if modes == 0 && "dimming" !in s {
      return Err(NothingToDo);
    }
    var out: Payload := map[];
    if channels == 3 {
      var colour := CheckColour(s);
      if colour.Err? {
        return colour;
      }
      out := colour.value;
    }
    if "temp" in s {
      var temp :- CheckIntRange(s, "temp", 1000, 10000);
      out := out["temp" := Int(temp)];
    }
    if HasScene(s) {
      var sid := if "scene" in s then s["scene"] else s["sceneId"];
      if !sid.Int? {
        return Err(SceneNotAnInteger);
      }
      if !(1 <= sid.n <= SCENES) {
        return Err(UnknownScene(sid.n));
      }
      out := out["scene" := sid];
    }
    if "dimming" in s {
      var dimming :- CheckIntRange(s, "dimming", 0, 100);
      out := out["dimming" := Int(dimming)];
    }
    r := Ok(out);
    assert out == Validate(s).value;
  }

  method CheckColour(s: Payload) returns (c: Result<Payload, Problem>)
    requires HasRgb(s)
    ensures c == CheckRgb(s)
  {
    var r :- CheckIntRange(s, "r", 0, 255);
    var g :- CheckIntRange(s, "g", 0, 255);
    var b :- CheckIntRange(s, "b", 0, 255);
    if r == 0 && g == 0 && b == 0 {
      return Err(Black);
    }
    var peak := Max(Max(r, g), b);
    if peak < MIN_MAX_CHANNEL {
      r := RoundHalfEven(r * MIN_MAX_CHANNEL, peak);
      g := RoundHalfEven(g * MIN_MAX_CHANNEL, peak);
      b := RoundHalfEven(b * MIN_MAX_CHANNEL, peak);
    }
    c := Ok(map["r" := Int(r), "g" := Int(g), "b" := Int(b)]);
  }

  // ---------- The normal form

  predicate IntIn(s: Payload, key: string, lo: int, hi: int) {
    key in s && s[key].Int? && lo <= s[key].n <= hi
  }

  predicate BrightRgb(s: Payload) {
    && IntIn(s, "r", 0, 255) && IntIn(s, "g", 0, 255) && IntIn(s, "b", 0, 255)
    && Peak(Rgb(s["r"].n, s["g"].n, s["b"].n)) >= MIN_MAX_CHANNEL
  }

  /** Off and nothing else; or something, of which at most one of a colour the bulb can show, a
      temperature and a built-in scene. */
  predicate IsNormal(s: Payload) {
    || s == TURN_OFF
    || (&& s.Keys <= {"r", "g", "b", "temp", "scene", "dimming"} && s != map[]
        && !HasPartRgb(s) && Modes(s) <= 1
        && (HasRgb(s) ==> BrightRgb(s))
        && ("temp" in s ==> IntIn(s, "temp", 1000, 10000))
        && ("scene" in s ==> IntIn(s, "scene", 1, SCENES))
        && ("dimming" in s ==> IntIn(s, "dimming", 0, 100)))
  }

  lemma RgbIsBright(s: Payload)
    requires HasRgb(s) && CheckRgb(s).Ok?
    ensures BrightRgb(CheckRgb(s).value) && CheckRgb(s).value.Keys == {"r", "g", "b"}
  {
    ClampsAreFaithful(Rgb(s["r"].n, s["g"].n, s["b"].n));
  }

  /** A joined payload shows each of its sections. */
  lemma Sections(rgb: Payload, temp: Payload, scene: Payload, dimming: Payload)
    requires rgb.Keys <= {"r", "g", "b"} && temp.Keys <= {"temp"} && scene.Keys <= {"scene"}
        && dimming.Keys <= {"dimming"}
    ensures
      var out := rgb + temp + scene + dimming;
      && out.Keys == rgb.Keys + temp.Keys + scene.Keys + dimming.Keys
      && (forall k :: k in rgb ==> out[k] == rgb[k])
      && (forall k :: k in temp ==> out[k] == temp[k])
      && (forall k :: k in scene ==> out[k] == scene[k])
      && (forall k :: k in dimming ==> out[k] == dimming[k])
  {
  }

  /** Validation joins the sections of an accepted payload. */
  lemma ResultSections(s: Payload) returns (rgb: Payload, temp: Payload, scene: Payload, dimming: Payload)
    requires Validate(s).Ok? && !SaysOff(s)
    ensures rgb.Keys <= {"r", "g", "b"} && temp.Keys <= {"temp"} && scene.Keys <= {"scene"}
        && dimming.Keys <= {"dimming"}
    ensures Validate(s).value == rgb + temp + scene + dimming
    ensures if HasRgb(s) then CheckRgb(s) == Ok(rgb) else rgb == map[]
    ensures if "temp" in s then CheckTemp(s) == Ok(temp) else temp == map[]
    ensures if HasScene(s) then CheckScene(s) == Ok(scene) else scene == map[]
    ensures if "dimming" in s then CheckDimming(s) == Ok(dimming) else dimming == map[]
  {
    rgb := if HasRgb(s) then CheckRgb(s).value else map[];
    temp := if "temp" in s then CheckTemp(s).value else map[];
    scene := if HasScene(s) then CheckScene(s).value else map[];
    dimming := if "dimming" in s then CheckDimming(s).value else map[];
  }

  lemma JoinIsNormal(rgb: Payload, temp: Payload, scene: Payload, dimming: Payload)
    requires rgb.Keys <= {"r", "g", "b"} && temp.Keys <= {"temp"} && scene.Keys <= {"scene"}
        && dimming.Keys <= {"dimming"}
    requires rgb == map[] || BrightRgb(rgb)
    requires temp == map[] || IntIn(temp, "temp", 1000, 10000)
    requires scene == map[] || IntIn(scene, "scene", 1, SCENES)
    requires dimming == map[] || IntIn(dimming, "dimming", 0, 100)
    requires Count(rgb != map[]) + Count(temp != map[]) + Count(scene != map[]) <= 1
    requires rgb != map[] || temp != map[] || scene != map[] || dimming != map[]
    ensures IsNormal(rgb + temp + scene + dimming)
  {
    Sections(rgb, temp, scene, dimming);
    var out := rgb + temp + scene + dimming;
    assert "sceneId" !in out.Keys;
    assert HasRgb(out) <==> rgb != map[];
    assert out != map[] by {
      if k :| k in rgb.Keys + temp.Keys + scene.Keys + dimming.Keys {
        assert k in out.Keys;
      }
    }
  }

  /** Whatever is accepted comes out in normal form. */
  lemma ResultIsNormal(s: Payload)
    requires Validate(s).Ok?
    ensures IsNormal(Validate(s).value)
  {
    if !SaysOff(s) {
      var rgb, temp, scene, dimming := ResultSections(s);
      if HasRgb(s) {
        RgbIsBright(s);
      }
      assert Modes(s) <= 1 && (Modes(s) == 1 || "dimming" in s);
      assert "dimming" in s ==> "dimming" in dimming;
      JoinIsNormal(rgb, temp, scene, dimming);
    }
  }

  /** Exactly these payloads are accepted, and those that ask to turn off come out as that alone. */
  lemma AcceptedIff(s: Payload)
    ensures
      var off := ("turn_off" in s && s["turn_off"] == Bool(true)) || ("state" in s && s["state"] == Bool(false));
      var rgb, temp, scene := "r" in s || "g" in s || "b" in s, "temp" in s, "scene" in s || "sceneId" in s;
      && (off ==> Validate(s) == Ok(map["turn_off" := Bool(true)]))
      && (Validate(s).Ok? <==>
            || off
            || (&& (rgb || temp || scene || "dimming" in s) && !(rgb && temp) && !(rgb && scene) && !(temp && scene)
                && (rgb ==> IntIn(s, "r", 0, 255) && IntIn(s, "g", 0, 255) && IntIn(s, "b", 0, 255) &&
                            (s["r"].n > 0 || s["g"].n > 0 || s["b"].n > 0))
                && (temp ==> IntIn(s, "temp", 1000, 10000))
                && (scene ==> IntIn(s, if "scene" in s then "scene" else "sceneId", 1, 37))
                && ("dimming" in s ==> IntIn(s, "dimming", 0, 100))))
  {
  }

  // ---------- Why a payload is refused

  function IntProblem(s: Payload, key: string, lo: int, hi: int): Option<Problem> {
    if key !in s then None
    else
      match s[key]
      case Int(n) => if n < lo || n > hi then Some(OutOfRange(key)) else None
      case _ => Some(NotAnInteger(key))
  }

  function ColourProblem(s: Payload): Option<Problem> {
    Either(IntProblem(s, "r", 0, 255), Either(IntProblem(s, "g", 0, 255), Either(IntProblem(s, "b", 0, 255),
      if "r" in s && s["r"] == Int(0) && Get(s, "g") == Some(Int(0)) && Get(s, "b") == Some(Int(0)) then Some(Black)
      else None)))
  }

  function SceneProblem(s: Payload): Option<Problem> {
    if "scene" !in s && "sceneId" !in s then None
    else
      match if "scene" in s then s["scene"] else s["sceneId"]
      case Int(n) => if n < 1 || n > 37 then Some(UnknownScene(n)) else None
      case _ => Some(SceneNotAnInteger)
  }

  /** What is wrong with a payload that does not ask to turn off, in the order in which it is found out: some
      but not all channels, two modes at once, nothing at all, then the colour, the temperature, the scene and
      the dimming. */
  function ProblemOf(s: Payload): Option<Problem> {
    var some, all := "r" in s || "g" in s || "b" in s, "r" in s && "g" in s && "b" in s;
    var temp, scene := "temp" in s, "scene" in s || "sceneId" in s;
    if some && !all then Some(PartialRgb)
    else if (all && temp) || (all && scene) || (temp && scene) then Some(CombinedModes)
    else if !some && !temp && !scene && "dimming" !in s then Some(NothingToDo)
    else
      Either(ColourProblem(s), Either(IntProblem(s, "temp", 1000, 10000),
                                      Either(SceneProblem(s), IntProblem(s, "dimming", 0, 100))))
  }

  function Get(s: Payload, key: string): Option<Json> {
    if key in s then Some(s[key]) else None
  }

  lemma ColourIsChecked(s: Payload)
    requires HasRgb(s)
    ensures if ColourProblem(s).Some? then CheckRgb(s) == Err(ColourProblem(s).value) else CheckRgb(s).Ok?
  {
  }

  /** A payload is refused with its first problem. */
  lemma RefusedWith(s: Payload)
    requires !SaysOff(s)
    ensures if ProblemOf(s).Some? then Validate(s) == Err(ProblemOf(s).value) else Validate(s).Ok?
  {
    hide ColourProblem, CheckRgb;
    if HasRgb(s) {
      ColourIsChecked(s);
    } else if !HasPartRgb(s) {
      NoColourProblem(s);
    }
  }

  lemma NoColourProblem(s: Payload)
    requires "r" !in s && "g" !in s && "b" !in s
    ensures ColourProblem(s) == None
  {
  }

  lemma NormalIsAccepted(s: Payload)
    requires IsNormal(s) && s != TURN_OFF
    ensures !SaysOff(s) && Validate(s).Ok?
  {
    if k :| k in s {
      assert k in s.Keys;
    }
    AcceptedIff(s);
  }

  lemma NormalRgb(s: Payload)
    requires HasRgb(s) && BrightRgb(s)
    ensures CheckRgb(s) == Ok(map["r" := s["r"], "g" := s["g"], "b" := s["b"]])
  {
  }

  ghost predicate PartOf(part: Payload, s: Payload) {
    forall k :: k in part ==> k in s && part[k] == s[k]
  }

  lemma JoinOfParts(s: Payload, a: Payload, b: Payload, c: Payload, d: Payload)
    requires PartOf(a, s) && PartOf(b, s) && PartOf(c, s) && PartOf(d, s)
    requires s.Keys <= a.Keys + b.Keys + c.Keys + d.Keys
    ensures a + b + c + d == s
  {
  }

  lemma NormalSections(s: Payload, rgb: Payload, temp: Payload, scene: Payload, dimming: Payload)
    requires s.Keys <= {"r", "g", "b", "temp", "scene", "dimming"} && !HasPartRgb(s)
    requires rgb == if HasRgb(s) then map["r" := s["r"], "g" := s["g"], "b" := s["b"]] else map[]
    requires temp == if "temp" in s then map["temp" := s["temp"]] else map[]
    requires scene == if "scene" in s then map["scene" := s["scene"]] else map[]
    requires dimming == if "dimming" in s then map["dimming" := s["dimming"]] else map[]
    ensures rgb + temp + scene + dimming == s
  {
    assert PartOf(rgb, s) && PartOf(temp, s) && PartOf(scene, s) && PartOf(dimming, s);
    hide PartOf;
    JoinOfParts(s, rgb, temp, scene, dimming);
  }

  lemma NormalIsFixed(s: Payload)
    requires IsNormal(s)
    ensures Validate(s) == Ok(s)
  {
    if s != TURN_OFF {
      NormalIsAccepted(s);
      hide Validate, CheckRgb;
      var rgb, temp, scene, dimming := ResultSections(s);
      if HasRgb(s) {
        NormalRgb(s);
      }
      NormalSections(s, rgb, temp, scene, dimming);
    }
  }

  /** The normal forms are exactly the payloads that validation leaves alone. */
  lemma NormalIffFixed(s: Payload)
    ensures IsNormal(s) <==> Validate(s) == Ok(s)
  {
    if IsNormal(s) {
      NormalIsFixed(s);
    }
    if Validate(s) == Ok(s) {
      ResultIsNormal(s);
    }
  }

  /** Validating twice is validating once. */
  lemma ValidateIsIdempotent(s: Payload)
    requires Validate(s).Ok?
    ensures Validate(Validate(s).value) == Validate(s)
  {
    ResultIsNormal(s);
    NormalIsFixed(Validate(s).value);
  }

  /** What is accepted keeps the temperature, scene and dimming that were asked for, and adds none. */
  lemma ValidateKeepsTheRequest(s: Payload)
    requires Validate(s).Ok? && !SaysOff(s)
    ensures
      var out := Validate(s).value;
      && (if "temp" in s then Holds(out, "temp", s["temp"]) else "temp" !in out)
      && (if "dimming" in s then Holds(out, "dimming", s["dimming"]) else "dimming" !in out)
      && (if HasScene(s) then Holds(out, "scene", SceneOf(s)) else "scene" !in out)
  {
    hide Validate, CheckRgb;
    var rgb, temp, scene, dimming := ResultSections(s);
    Sections(rgb, temp, scene, dimming);
  }

  /** It keeps the colour too or, where that is too dark for the bulb, its faithful clamp. */
  lemma ValidateKeepsTheColour(s: Payload)
    requires Validate(s).Ok? && !SaysOff(s)
    ensures
      var out := Validate(s).value;
      && (HasRgb(s) <==> HasRgb(out))
      && (HasRgb(s) ==> s["r"].Int? && s["g"].Int? && s["b"].Int? && BrightRgb(out) &&
                        FaithfulClamp(Rgb(s["r"].n, s["g"].n, s["b"].n), Rgb(out["r"].n, out["g"].n, out["b"].n)))
  {
    hide Validate, CheckTemp, CheckScene, CheckDimming;
    var rgb, temp, scene, dimming := ResultSections(s);
    Sections(rgb, temp, scene, dimming);
    if HasRgb(s) {
      RgbIsBright(s);
      ClampsAreFaithful(Rgb(s["r"].n, s["g"].n, s["b"].n));
    }
  }
}
