/** The configuration parser (`control/config.py`): decoded TOML data to a configuration, or
    nothing where the source raises. The recursive case analysis is a function; the loops that
    fill dictionaries and lists are methods proved against it. */
module ConfigParser {
  import opened Wrappers
  import opened ControlModel
  import opened Toml

  const ACTION_FIELDS: set<string> :=
    {"type", "keys", "value", "argv", "timeout_seconds", "milliseconds", "steps", "message", "layer", "profile"}

  // ---- Actions ----

  function StringItems(items: seq<Value>): Option<seq<string>> {
    if items == [] then Some([])
    else if !items[0].Str? then None
    else
      var rest :- StringItems(items[1..]);
      Some([items[0].s] + rest)
  }

  /** `isinstance(v, int)`: in Python the booleans are the integers 0 and 1. */
  function AsInt(v: Value): Option<int> {
    match v
    case Int(n) => Some(n)
    case Bool(b) => Some(if b then 1 else 0)
    case _ => None
  }

  function ParseAction(v: Value, version: int): (r: Option<Action>)
    ensures r.Some? ==> WfAction(r.value)
    decreases v, 1
  {
    if !v.Table? || !(v.entries.Keys <= ACTION_FIELDS) then None
    else
      var m := v.entries;
      match Get(m, "type")
      case Str(kind) =>
        if kind == "hotkey" then
          if !Get(m, "keys").Arr? then None
          else
            var keys :- StringItems(Get(m, "keys").items);
            if NonEmptyStrings(keys) then Some(Hotkey(keys)) else None
        else if kind == "text" then
          if Get(m, "value").Str? then Some(Text(Get(m, "value").s)) else None
        else if kind == "command" then
          if !Get(m, "argv").Arr? then None
          else if !Get(m, "timeout_seconds").Null? && AsInt(Get(m, "timeout_seconds")).None? then None
          else
            var argv :- StringItems(Get(m, "argv").items);
            if NonEmptyStrings(argv) then Some(Command(argv, AsInt(Get(m, "timeout_seconds")))) else None
        else if kind == "delay" then
          var ms :- AsInt(Get(m, "milliseconds"));
          if 0 <= ms then Some(Delay(ms)) else None
        else if kind == "macro" then
          if "steps" in m && m["steps"].Arr? then
            var steps :- ParseSteps(m["steps"].items, version);
            Some(Macro(steps))
          else None
        else if kind == "noop" then Some(NoOp)
        else if kind == "debug_log" then
          if Get(m, "message").Str? then Some(DebugLog(Get(m, "message").s)) else None
        else if kind == "set_layer" then
          if version >= 2 && Get(m, "layer").Str? then Some(SetLayer(Get(m, "layer").s)) else None
        else if kind == "next_layer" then
          if version >= 2 then Some(NextLayer) else None
        else if kind == "previous_layer" then
          if version >= 2 then Some(PreviousLayer) else None
        else if kind == "set_profile" then
          if version >= 2 && Get(m, "profile").Str? then Some(SetProfile(Get(m, "profile").s)) else None
        else None
      case _ => None
  }

  function ParseSteps(items: seq<Value>, version: int): (r: Option<seq<Action>>)
    ensures r.Some? ==> |r.value| == |items|
    ensures r.Some? ==> forall i :: 0 <= i < |items| ==> ParseAction(items[i], version) == Some(r.value[i])
    ensures r.None? ==> exists i :: 0 <= i < |items| && ParseAction(items[i], version).None?
    decreases items, 0
  {
    if items == [] then Some([])
    else
      var first := ParseAction(items[0], version);
      var rest := ParseSteps(items[1..], version);
      if first.None? then None
      else if rest.None? then
        var i :| 0 <= i < |items[1..]| && ParseAction(items[1..][i], version).None?;
        assert ParseAction(items[i + 1], version).None?;
        None
      else Some([first.value] + rest.value)
  }

  /** The list-building loop of the macro case. */
  method BuildSteps(items: seq<Value>, version: int) returns (r: Option<seq<Action>>)
    ensures r == ParseSteps(items, version)
  {
    var steps := [];
    for i := 0 to |items|
      invariant |steps| == i
      invariant forall k :: 0 <= k < i ==> ParseAction(items[k], version) == Some(steps[k])
    {
      var step := ParseAction(items[i], version);
      if step.None? { return None; }
      steps := steps + [step.value];
    }
    r := Some(steps);
    assert ParseSteps(items, version).value == steps;
  }

  // ---- Controls ----

  /** One entry of a controls table: an error, no mapping, or a mapping. */
  function ParseControl(name: string, v: Value, version: int): Option<Option<Action>> {
    if !IsControl(name) || !v.Table? then None
    else if Get(v.entries, "action").Null? then Some(None)
    else
      var a :- ParseAction(v.entries["action"], version);
      if v.entries.Keys <= {"action"} then Some(Some(a)) else None
  }

  predicate ControlsAccepted(m: Entries, version: int) {
    forall c :: c in m ==> ParseControl(c, m[c], version).Some?
  }

  function ParseControls(m: Entries, version: int): (r: Option<map<string, Action>>)
    ensures r.Some? ==> WfControls(r.value)
  {
    if ControlsAccepted(m, version) then
      Some(map c | c in m && ParseControl(c, m[c], version).value.Some?
             :: ParseControl(c, m[c], version).value.value)
    else None
  }

  /** `_parse_controls`, in whatever order the table is enumerated. */
  method BuildControls(m: Entries, version: int) returns (r: Option<map<string, Action>>)
    ensures r == ParseControls(m, version)
  {
    var result: map<string, Action> := map[];
    var todo := m.Keys;
    while todo != {}
      invariant todo <= m.Keys
      invariant forall c :: c in m && c !in todo ==> ParseControl(c, m[c], version).Some?
      invariant forall c :: c in result <==>
                  c in m && c !in todo && ParseControl(c, m[c], version).value.Some?
      invariant forall c :: c in result ==> result[c] == ParseControl(c, m[c], version).value.value
      decreases todo
    {
      var c :| c in todo;
      var entry := ParseControl(c, m[c], version);
      if entry.None? {
        assert !ControlsAccepted(m, version);
        return None;
      }
      if entry.value.Some? {
        result := result[c := entry.value.value];
      }
      todo := todo - {c};
    }
    r := Some(result);
    assert ParseControls(m, version).value == result;
  }

  // ---- Tables of layers and of profiles ----

  predicate AllAccepted<T>(m: Entries, parse: (string, Value) -> Option<T>) {
    forall k :: k in m ==> parse(k, m[k]).Some?
  }

  function ParseAll<T>(m: Entries, parse: (string, Value) -> Option<T>): Option<map<string, T>> {
    if AllAccepted(m, parse) then Some(map k | k in m :: parse(k, m[k]).value) else None
  }

  /** The loop over `profiles_data.items()`, and the one over `layers_data.items()` inside it,
      in whatever order the table is enumerated. */
  method BuildAll<T>(m: Entries, parse: (string, Value) -> Option<T>) returns (r: Option<map<string, T>>)
    ensures r == ParseAll(m, parse)
  {
    var built: map<string, T> := map[];
    var todo := m.Keys;
    while todo != {}
      invariant todo <= m.Keys
      invariant built.Keys == m.Keys - todo
      invariant forall k :: k in built ==> parse(k, m[k]) == Some(built[k])
      decreases todo
    {
      var k :| k in todo;
      var item := parse(k, m[k]);
      if item.None? {
        assert !AllAccepted(m, parse);
        return None;
      }
      built := built[k := item.value];
      todo := todo - {k};
    }
    r := Some(built);
    assert ParseAll(m, parse).value == built;
  }


  /** `data.get(key, {})` where anything but a table is an error. */
  function SubTable(m: Entries, key: string): Option<Entries> {
    if key !in m then Some(map[])
    else if m[key].Table? then Some(m[key].entries)
    else None
  }

  lemma ParseAllExactly<T>(m: Entries, parse: (string, Value) -> Option<T>, ok: set<string>, good: map<string, T>)
    requires good.Keys == m.Keys
    requires forall k :: k in m ==> parse(k, m[k]) == if k in ok then Some(good[k]) else None
    ensures ParseAll(m, parse) == if m.Keys <= ok then Some(good) else None
  {
    if m.Keys <= ok {
      assert ParseAll(m, parse).value == good;
    } else {
      var k :| k in m && k !in ok;
      assert parse(k, m[k]).None?;
    }
  }

  function ParseLayer(name: string, v: Value): Option<LayerConfig> {
    if !v.Table? || !IsLayerId(name) || !(v.entries.Keys <= {"controls"}) then None
    else
      var m :- SubTable(v.entries, "controls");
      var controls :- ParseControls(m, 2);
      Some(LayerConfig(name, controls))
  }

  function ParseLayers(m: Entries): Option<map<string, LayerConfig>> {
    ParseAll(m, ParseLayer)
  }

  function ParseProfile(name: string, v: Value): Option<ProfileConfig> {
    if !v.Table? || !IsProfileId(name) || !(v.entries.Keys <= {"layers"}) then None
    else
      var m :- SubTable(v.entries, "layers");
      var layers :- ParseLayers(m);
      if GENERAL in layers then Some(ProfileConfig(name, layers)) else None
  }

  function ParseProfiles(m: Entries): Option<map<string, ProfileConfig>> {
    ParseAll(m, ParseProfile)
  }

  // ---- Whole configurations ----

  /** Schema 1: one unlayered table of controls becomes the general layer of a default profile. */
  function ParseSchemaV1(data: Entries): Option<LayeredControlConfig> {
    if !(data.Keys <= {"schema_version", "controls"}) then None
    else
      var m :- SubTable(data, "controls");
      var controls :- ParseControls(m, 1);
      var profile := ProfileConfig("default", map[GENERAL := LayerConfig(GENERAL, controls)]);
      Some(LayeredControlConfig(1, "default", GENERAL, map["default" := profile]))
  }

  function ParseSchemaV2(data: Entries): Option<LayeredControlConfig> {
    if !(data.Keys <= {"schema_version", "default_profile", "initial_layer", "profiles"}) then None
    else
      var default := Get(data, "default_profile");
      var initial := Get(data, "initial_layer");
      var table := Get(data, "profiles");
      if !default.Str? || !IsProfileId(default.s) then None
      else if !initial.Str? || !IsLayerId(initial.s) then None
      else if !table.Table? || table.entries == map[] then None
      else
        var profiles :- ParseProfiles(table.entries);
        if default.s in profiles then Some(LayeredControlConfig(2, default.s, initial.s, profiles)) else None
  }

  /** `v == n` for a Python value. */
  predicate EqualsNumber(v: Value, n: int) {
    match v
    case Int(k) => k == n
    case Float(r) => r == n as real
    case Bool(b) => n == if b then 1 else 0
    case _ => false
  }

  function ParseConfig(data: Entries): Option<LayeredControlConfig> {
    var version := Get(data, "schema_version");
    if EqualsNumber(version, 1) then ParseSchemaV1(data)
    else if EqualsNumber(version, 2) then ParseSchemaV2(data)
    else None
  }

  /** `load_control_config_from_string` */
  function Load(text: string): Option<LayeredControlConfig> {
    var data :- Loads(text);
    ParseConfig(data)
  }

  predicate ProfileAsLoaded(name: string, prof: ProfileConfig) {
    && IsProfileId(name) && WfProfile(prof) && GENERAL in prof.layers
    && prof.profileId == name
    && forall l :: l in prof.layers ==> prof.layers[l].layerId == l
  }

  lemma ParseProfileAsLoaded(name: string, v: Value)
    requires ParseProfile(name, v).Some?
    ensures ProfileAsLoaded(name, ParseProfile(name, v).value)
  {
    var m := SubTable(v.entries, "layers").value;
    var layers := ParseLayers(m).value;
    assert AllAccepted(m, ParseLayer);
    forall l | l in layers ensures IsLayerId(l) && WfControls(layers[l].controls) && layers[l].layerId == l {
      assert ParseLayer(l, m[l]) == Some(layers[l]);
    }
  }

  /** Whatever the text, a configuration that loads is well formed, has its default profile, and
      has a general layer in every profile; its redundant identifiers agree with its keys. */
  lemma LoadedConfig(text: string)
    requires Load(text).Some?
    ensures IsLoaded(Load(text).value)
    ensures Load(text).value.schemaVersion in {1, 2}
    ensures forall p :: p in Load(text).value.profiles ==> ProfileAsLoaded(p, Load(text).value.profiles[p])
  {
    ParseConfigLoads(Loads(text).value);
  }

  lemma ParseConfigLoads(data: Entries)
    requires ParseConfig(data).Some?
    ensures IsLoaded(ParseConfig(data).value)
    ensures ParseConfig(data).value.schemaVersion in {1, 2}
    ensures forall p :: p in ParseConfig(data).value.profiles ==> ProfileAsLoaded(p, ParseConfig(data).value.profiles[p])
  {
    var cfg := ParseConfig(data).value;
    if EqualsNumber(Get(data, "schema_version"), 1) {
      assert IsPlainProfileId("default");
      assert ProfileAsLoaded("default", cfg.profiles["default"]);
    } else {
      var m := data["profiles"].entries;
      assert AllAccepted(m, ParseProfile);
      forall p | p in cfg.profiles ensures ProfileAsLoaded(p, cfg.profiles[p]) {
        ParseProfileAsLoaded(p, m[p]);
      }
    }
  }
}
