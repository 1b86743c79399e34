/** The grammar of configurations (`control/config.py`) and of action specs
    (`configurator/action_spec.py`), as relations between decoded data and what it denotes; the
    parsers accept exactly what is in the relation, as what it denotes. */
module ConfigGrammar {
  import opened Wrappers
  import opened ControlModel
  import opened Toml
  import opened ConfigParser
  import opened ActionSpec

  // ---- Fields ----

  predicate Holds(m: Entries, key: string, v: Value) { key in m && m[key] == v }

  /** The field is not there, or is null. */
  predicate Lacks(m: Entries, key: string) { key !in m || m[key].Null? }

  predicate ListsStrings(v: Value, ss: seq<string>) {
    && v.Arr? && |v.items| == |ss| && ss != []
    && forall i :: 0 <= i < |ss| ==> v.items[i] == Str(ss[i]) && ss[i] != ""
  }

  /** Booleans are whole numbers too. */
  predicate IsWhole(v: Value, n: int) { v == Int(n) || (v == Bool(true) && n == 1) || (v == Bool(false) && n == 0) }

  lemma {:induction false} StringItemsExactly(items: seq<Value>, ss: seq<string>)
    ensures StringItems(items) == Some(ss) <==> |items| == |ss| && forall i :: 0 <= i < |ss| ==> items[i] == Str(ss[i])
  {
    if items != [] && ss != [] {
      StringItemsExactly(items[1..], ss[1..]);
      assert ss == [ss[0]] + ss[1..] && items == [items[0]] + items[1..];
    }
  }

  lemma StringsExactly(v: Value, ss: seq<string>)
    ensures ListsStrings(v, ss) <==> v.Arr? && StringItems(v.items) == Some(ss) && NonEmptyStrings(ss)
  {
    if v.Arr? { StringItemsExactly(v.items, ss); }
  }

  // ---- Actions of a configuration ----

  predicate ActionFieldsOnly(m: Entries) {
    m.Keys <= {"type", "keys", "value", "argv", "timeout_seconds", "milliseconds", "steps", "message", "layer", "profile"}
  }

  /** The data denotes the action; context actions need schema 2. A field of another kind of action
      is allowed, a field of none is not. */
  predicate Denotes(v: Value, version: int, a: Action)
    decreases a
  {
    && v.Table? && ActionFieldsOnly(v.entries)
    && var m := v.entries;
       match a
       case Hotkey(keys) => Holds(m, "type", Str("hotkey")) && "keys" in m && ListsStrings(m["keys"], keys)
       case Text(text) => Holds(m, "type", Str("text")) && Holds(m, "value", Str(text))
       case Command(argv, timeout) =>
         && Holds(m, "type", Str("command")) && "argv" in m && ListsStrings(m["argv"], argv)
         && if timeout.None? then Lacks(m, "timeout_seconds")
            else "timeout_seconds" in m && IsWhole(m["timeout_seconds"], timeout.value)
       case Delay(ms) =>
         Holds(m, "type", Str("delay")) && "milliseconds" in m && IsWhole(m["milliseconds"], ms) && ms >= 0
       case Macro(steps) =>
         && Holds(m, "type", Str("macro")) && "steps" in m && m["steps"].Arr? && |m["steps"].items| == |steps|
         && forall i :: 0 <= i < |steps| ==> Denotes(m["steps"].items[i], version, steps[i])
       case NoOp => Holds(m, "type", Str("noop"))
       case DebugLog(message) => Holds(m, "type", Str("debug_log")) && Holds(m, "message", Str(message))
       case SetLayer(layer) => version >= 2 && Holds(m, "type", Str("set_layer")) && Holds(m, "layer", Str(layer))
       case NextLayer => version >= 2 && Holds(m, "type", Str("next_layer"))
       case PreviousLayer => version >= 2 && Holds(m, "type", Str("previous_layer"))
       case SetProfile(profile) => version >= 2 && Holds(m, "type", Str("set_profile")) && Holds(m, "profile", Str(profile))
  }

  lemma ListExactly(v: Value, version: int, a: Action)
    requires a.Hotkey? || a.Command?
    ensures ParseAction(v, version) == Some(a) <==> Denotes(v, version, a)
  {
    if v.Table? {
      var m := v.entries;
      if "keys" in m && a.Hotkey? { StringsExactly(m["keys"], a.keys); }
      if "argv" in m && a.Command? { StringsExactly(m["argv"], a.argv); }
    }
  }

  lemma LeafExactly(v: Value, version: int, a: Action)
    requires !a.Macro?
    ensures ParseAction(v, version) == Some(a) <==> Denotes(v, version, a)
  {
    if a.Hotkey? || a.Command? { ListExactly(v, version, a); }
  }

  lemma {:induction false} ActionExactly(v: Value, version: int, a: Action)
    ensures ParseAction(v, version) == Some(a) <==> Denotes(v, version, a)
    decreases a
  {
    if !a.Macro? {
      LeafExactly(v, version, a);
    } else if v.Table? && "steps" in v.entries && v.entries["steps"].Arr? && |v.entries["steps"].items| == |a.steps| {
      var items := v.entries["steps"].items;
      forall i | 0 <= i < |items| ensures ParseAction(items[i], version) == Some(a.steps[i]) <==> Denotes(items[i], version, a.steps[i]) {
        ActionExactly(items[i], version, a.steps[i]);
      }
      StepsExactly(items, version, a.steps);
    }
  }

  lemma StepsExactly(items: seq<Value>, version: int, steps: seq<Action>)
    requires |items| == |steps|
    ensures ParseSteps(items, version) == Some(steps)
       <==> forall i :: 0 <= i < |steps| ==> ParseAction(items[i], version) == Some(steps[i])
  {
    var r := ParseSteps(items, version);
    if r.Some? && forall i :: 0 <= i < |steps| ==> ParseAction(items[i], version) == Some(steps[i]) {
      assert r.value == steps;
    }
  }

  // ---- Tables of a configuration ----

  predicate ControlDenotes(name: string, v: Value, version: int, x: Option<Action>) {
    && IsControl(name) && v.Table?
    && if x.None? then Lacks(v.entries, "action")
       else v.entries.Keys == {"action"} && Denotes(v.entries["action"], version, x.value)
  }

  predicate ControlsDenote(m: Entries, version: int, controls: map<string, Action>) {
    && controls.Keys <= m.Keys
    && forall c :: c in m ==> ControlDenotes(c, m[c], version, MappedTo(controls, c))
  }

  predicate LayerDenotes(name: string, v: Value, layer: LayerConfig) {
    && IsLayerId(name) && layer.layerId == name && v.Table? && v.entries.Keys <= {"controls"}
    && if "controls" in v.entries then v.entries["controls"].Table? && ControlsDenote(v.entries["controls"].entries, 2, layer.controls)
       else layer.controls == map[]
  }

  predicate ProfileDenotes(name: string, v: Value, prof: ProfileConfig) {
    && IsProfileId(name) && prof.profileId == name && GENERAL in prof.layers
    && v.Table? && v.entries.Keys == {"layers"} && v.entries["layers"].Table?
    && var m := v.entries["layers"].entries;
       m.Keys == prof.layers.Keys && forall l :: l in m ==> LayerDenotes(l, m[l], prof.layers[l])
  }

  predicate IsVersion(data: Entries, n: int) {
    "schema_version" in data && (data["schema_version"] == Float(n as real) || IsWhole(data["schema_version"], n))
  }

  /** The whole file. Schema 1 is one table of controls, the general layer of a profile "default". */
  predicate ConfigDenotes(data: Entries, cfg: LayeredControlConfig) {
    if cfg.schemaVersion == 1 then
      && IsVersion(data, 1) && data.Keys <= {"schema_version", "controls"} && IsOld(cfg)
      && var controls := cfg.profiles["default"].layers[GENERAL].controls;
         if "controls" in data then data["controls"].Table? && ControlsDenote(data["controls"].entries, 1, controls)
         else controls == map[]
    else
      && cfg.schemaVersion == 2 && IsVersion(data, 2)
      && "profiles" in data && data["profiles"].Table?
      && NewFields(data, cfg.defaultProfile, cfg.initialLayer, data["profiles"].entries, data["profiles"].inline)
      && IsProfileId(cfg.defaultProfile) && IsLayerId(cfg.initialLayer) && cfg.defaultProfile in cfg.profiles
      && var m := data["profiles"].entries;
         m.Keys == cfg.profiles.Keys && forall p :: p in m ==> ProfileDenotes(p, m[p], cfg.profiles[p])
  }

  lemma ControlExactly(name: string, v: Value, version: int, x: Option<Action>)
    ensures ParseControl(name, v, version) == Some(x) <==> ControlDenotes(name, v, version, x)
  {
    if v.Table? && "action" in v.entries && x.Some? { ActionExactly(v.entries["action"], version, x.value); }
  }

  function MappedTo(controls: map<string, Action>, c: string): Option<Action> {
    if c in controls then Some(controls[c]) else None
  }

  lemma ControlsParse(m: Entries, version: int, controls: map<string, Action>)
    ensures ParseControls(m, version) == Some(controls)
       <==> controls.Keys <= m.Keys && forall c :: c in m ==> ParseControl(c, m[c], version) == Some(MappedTo(controls, c))
  {
    if controls.Keys <= m.Keys && forall c :: c in m ==> ParseControl(c, m[c], version) == Some(MappedTo(controls, c)) {
      assert ControlsAccepted(m, version);
      assert ParseControls(m, version).value == controls;
    }
  }

  lemma ControlsExactly(m: Entries, version: int, controls: map<string, Action>)
    ensures ParseControls(m, version) == Some(controls) <==> ControlsDenote(m, version, controls)
  {
    ControlsParse(m, version, controls);
    forall c | c in m
      ensures ParseControl(c, m[c], version) == Some(MappedTo(controls, c)) <==> ControlDenotes(c, m[c], version, MappedTo(controls, c))
    {
      ControlExactly(c, m[c], version, MappedTo(controls, c));
    }
  }

  lemma LayerExactly(name: string, v: Value, layer: LayerConfig)
    ensures ParseLayer(name, v) == Some(layer) <==> LayerDenotes(name, v, layer)
  {
    if v.Table? {
      if "controls" in v.entries {
        if v.entries["controls"].Table? { ControlsExactly(v.entries["controls"].entries, 2, layer.controls); }
      } else {
        ControlsExactly(map[], 2, layer.controls);
      }
    }
  }

  lemma AllExactly<T>(m: Entries, parse: (string, Value) -> Option<T>, parsed: map<string, T>)
    ensures ParseAll(m, parse) == Some(parsed)
       <==> m.Keys == parsed.Keys && forall k :: k in m ==> parse(k, m[k]) == Some(parsed[k])
  {
    if m.Keys == parsed.Keys && forall k :: k in m ==> parse(k, m[k]) == Some(parsed[k]) {
      assert AllAccepted(m, parse);
      assert ParseAll(m, parse).value == parsed;
    }
  }

  lemma ProfileExactly(name: string, v: Value, prof: ProfileConfig)
    ensures ParseProfile(name, v) == Some(prof) <==> ProfileDenotes(name, v, prof)
  {
    if v.Table? && "layers" in v.entries && v.entries["layers"].Table? {
      var m := v.entries["layers"].entries;
      AllExactly(m, ParseLayer, prof.layers);
      forall l | l in m && l in prof.layers ensures ParseLayer(l, m[l]) == Some(prof.layers[l]) <==> LayerDenotes(l, m[l], prof.layers[l]) {
        LayerExactly(l, m[l], prof.layers[l]);
      }
    }
  }

  function OldOf(controls: map<string, Action>): LayeredControlConfig {
    LayeredControlConfig(1, "default", GENERAL,
                         map["default" := ProfileConfig("default", map[GENERAL := LayerConfig(GENERAL, controls)])])
  }

  /** The shape of a schema-1 configuration. */
  predicate IsOld(cfg: LayeredControlConfig) {
    && cfg.schemaVersion == 1 && cfg.defaultProfile == "default" && cfg.initialLayer == GENERAL
    && cfg.profiles.Keys == {"default"}
    && cfg.profiles["default"].profileId == "default" && cfg.profiles["default"].layers.Keys == {GENERAL}
    && cfg.profiles["default"].layers[GENERAL].layerId == GENERAL
  }

  lemma OldShape(cfg: LayeredControlConfig)
    ensures IsOld(cfg) <==> exists controls :: cfg == OldOf(controls)
    ensures IsOld(cfg) ==> cfg == OldOf(cfg.profiles["default"].layers[GENERAL].controls)
  {
    if IsOld(cfg) {
      var controls := cfg.profiles["default"].layers[GENERAL].controls;
      assert cfg.profiles["default"].layers == map[GENERAL := LayerConfig(GENERAL, controls)];
      assert cfg.profiles == OldOf(controls).profiles;
    }
  }

  lemma OldControls(controls: map<string, Action>, others: map<string, Action>)
    requires OldOf(controls) == OldOf(others)
    ensures controls == others
  {
    assert OldOf(controls).profiles["default"].layers[GENERAL].controls == controls;
    assert OldOf(others).profiles["default"].layers[GENERAL].controls == others;
  }

  /** The controls of a schema-1 file. */
  function OldTable(data: Entries): Option<Entries> { SubTable(data, "controls") }

  lemma OldParses(data: Entries, cfg: LayeredControlConfig)
    requires EqualsNumber(Get(data, "schema_version"), 1)
    ensures ParseConfig(data) == Some(cfg)
       <==> && data.Keys <= {"schema_version", "controls"} && OldTable(data).Some?
            && ParseControls(OldTable(data).value, 1).Some? && cfg == OldOf(ParseControls(OldTable(data).value, 1).value)
  {
  }

  lemma VersionExactly(data: Entries, n: int)
    requires n == 1 || n == 2
    ensures EqualsNumber(Get(data, "schema_version"), n) <==> IsVersion(data, n)
  {
  }

  lemma OldExactly(data: Entries, cfg: LayeredControlConfig)
    requires cfg.schemaVersion == 1
    ensures ParseConfig(data) == Some(cfg) <==> ConfigDenotes(data, cfg)
  {
    VersionExactly(data, 1);
    if IsVersion(data, 1) {
      OldParses(data, cfg);
      OldShape(cfg);
      var table := OldTable(data);
      if table.Some? && IsOld(cfg) {
        var controls := cfg.profiles["default"].layers[GENERAL].controls;
        ControlsExactly(table.value, 1, controls);
        if ParseControls(table.value, 1).Some? && cfg == OldOf(ParseControls(table.value, 1).value) {
          OldControls(controls, ParseControls(table.value, 1).value);
        }
        NoControls(controls, 1);
      }
    }
  }

  lemma NoControls(controls: map<string, Action>, version: int)
    ensures ControlsDenote(map[], version, controls) <==> controls == map[]
  {
  }

  lemma ProfilesExactly(m: Entries, profiles: map<string, ProfileConfig>)
    ensures ParseProfiles(m) == Some(profiles)
       <==> m.Keys == profiles.Keys && forall p :: p in m ==> ProfileDenotes(p, m[p], profiles[p])
  {
    AllExactly(m, ParseProfile, profiles);
    forall p | p in m && p in profiles ensures ParseProfile(p, m[p]) == Some(profiles[p]) <==> ProfileDenotes(p, m[p], profiles[p]) {
      ProfileExactly(p, m[p], profiles[p]);
    }
  }

  /** The four fields of a schema-2 file. */
  predicate NewFields(data: Entries, default_: string, initial: string, m: Entries, inline: bool) {
    && data.Keys == {"schema_version", "default_profile", "initial_layer", "profiles"}
    && data["default_profile"] == Str(default_) && data["initial_layer"] == Str(initial) && data["profiles"] == Table(m, inline)
  }

  lemma FourKeys(keys: set<string>, a: string, b: string, c: string, d: string)
    requires keys <= {a, b, c, d} && a in keys && b in keys && c in keys && d in keys
    ensures keys == {a, b, c, d}
  {
  }

  lemma NewNeedsFields(data: Entries)
    requires ParseSchemaV2(data).Some? && "schema_version" in data
    ensures "default_profile" in data && "initial_layer" in data && "profiles" in data
    ensures data["default_profile"].Str? && data["initial_layer"].Str? && data["profiles"].Table?
    ensures NewFields(data, data["default_profile"].s, data["initial_layer"].s, data["profiles"].entries, data["profiles"].inline)
  {
    FourKeys(data.Keys, "schema_version", "default_profile", "initial_layer", "profiles");
  }

  lemma NewParses(data: Entries, default_: string, initial: string, m: Entries, inline: bool)
    requires NewFields(data, default_, initial, m, inline)
    ensures ParseSchemaV2(data)
         == if !IsProfileId(default_) || !IsLayerId(initial) || m == map[] then None
            else
              var profiles := ParseProfiles(m);
              if profiles.Some? && default_ in profiles.value
              then Some(LayeredControlConfig(2, default_, initial, profiles.value)) else None
  {
  }

  lemma NewSound(data: Entries, cfg: LayeredControlConfig)
    requires ParseSchemaV2(data) == Some(cfg) && IsVersion(data, 2)
    ensures ConfigDenotes(data, cfg)
  {
    NewNeedsFields(data);
    var m := data["profiles"].entries;
    NewParses(data, data["default_profile"].s, data["initial_layer"].s, m, data["profiles"].inline);
    ProfilesExactly(m, cfg.profiles);
  }

  lemma NewComplete(data: Entries, cfg: LayeredControlConfig)
    requires cfg.schemaVersion == 2 && ConfigDenotes(data, cfg)
    ensures ParseSchemaV2(data) == Some(cfg)
  {
    var m := data["profiles"].entries;
    ProfilesExactly(m, cfg.profiles);
    NewParses(data, cfg.defaultProfile, cfg.initialLayer, m, data["profiles"].inline);
  }

  lemma NewDispatch(data: Entries, cfg: LayeredControlConfig)
    requires cfg.schemaVersion == 2
    ensures ParseConfig(data) == Some(cfg) <==> IsVersion(data, 2) && ParseSchemaV2(data) == Some(cfg)
  {
    VersionExactly(data, 2);
  }

  lemma NewExactly(data: Entries, cfg: LayeredControlConfig)
    requires cfg.schemaVersion == 2
    ensures ParseConfig(data) == Some(cfg) <==> ConfigDenotes(data, cfg)
  {
    NewDispatch(data, cfg);
    if IsVersion(data, 2) && ParseSchemaV2(data) == Some(cfg) { NewSound(data, cfg); }
    if ConfigDenotes(data, cfg) {
      assert IsVersion(data, 2);
      NewComplete(data, cfg);
    }
  }

  /** Loading accepts exactly the data of the grammar, as the configuration it denotes. */
  lemma ConfigExactly(data: Entries, cfg: LayeredControlConfig)
    ensures ParseConfig(data) == Some(cfg) <==> ConfigDenotes(data, cfg)
  {
    if cfg.schemaVersion == 1 {
      OldExactly(data, cfg);
    } else if cfg.schemaVersion == 2 {
      NewExactly(data, cfg);
    }
  }

  // ---- Action specs ----

  /** The number a JSON number or boolean stands for. */
  predicate IsNumberOf(v: Value, x: real) {
    match v
    case Int(n) => x == n as real
    case Float(r) => x == r
    case Bool(b) => x == if b then 1.0 else 0.0
    case _ => false
  }

  /** `t` is the number without its fraction. */
  predicate TruncatesTo(x: real, t: int) {
    if x >= 0.0 then t as real <= x < t as real + 1.0 else t as real - 1.0 < x <= t as real
  }

  predicate TimeoutDenotes(m: Entries, timeout: Option<int>) {
    if Lacks(m, "timeout_seconds") then timeout.None?
    else
      var v := m["timeout_seconds"];
      IsNumber(v) && if IsNumberOf(v, 0.0) then timeout.None? else timeout.Some? && TruncatesTo(NumberOf(v), timeout.value)
  }

  function NumberOf(v: Value): (x: real)
    requires IsNumber(v)
    ensures IsNumberOf(v, x)
  {
    match v
    case Int(n) => n as real
    case Float(r) => r
    case Bool(b) => if b then 1.0 else 0.0
  }

  predicate SpecFields(m: Entries, kind: string, fields: set<string>) {
    Holds(m, "type", Str(kind)) && m.Keys <= {"type"} + fields
  }

  /** The spec denotes the action at this nesting depth: only the fields of its kind, macros at most ten
      deep, layers and profiles by valid identifiers, numbers without their fraction, and a timeout of
      zero as none. */
  predicate SpecDenotes(v: Value, depth: nat, a: Action)
    decreases a
  {
    && v.Table?
    && var m := v.entries;
       match a
       case Hotkey(keys) => SpecFields(m, "hotkey", {"keys"}) && "keys" in m && ListsStrings(m["keys"], keys)
       case Text(text) => SpecFields(m, "text", {"value"}) && Holds(m, "value", Str(text))
       case Command(argv, timeout) =>
         && SpecFields(m, "command", {"argv", "timeout_seconds"}) && "argv" in m && ListsStrings(m["argv"], argv)
         && TimeoutDenotes(m, timeout)
       case Delay(ms) =>
         && SpecFields(m, "delay", {"milliseconds"}) && "milliseconds" in m && IsNumber(m["milliseconds"])
         && NumberOf(m["milliseconds"]) >= 0.0 && TruncatesTo(NumberOf(m["milliseconds"]), ms)
       case Macro(steps) =>
         && SpecFields(m, "macro", {"steps"}) && depth < 10 && "steps" in m && m["steps"].Arr?
         && |m["steps"].items| == |steps|
         && forall i :: 0 <= i < |steps| ==> SpecDenotes(m["steps"].items[i], depth + 1, steps[i])
       case NoOp => SpecFields(m, "noop", {})
       case DebugLog(message) => SpecFields(m, "debug_log", {"message"}) && Holds(m, "message", Str(message))
       case SetLayer(layer) => SpecFields(m, "set_layer", {"layer"}) && Holds(m, "layer", Str(layer)) && IsLayerId(layer)
       case NextLayer => SpecFields(m, "next_layer", {})
       case PreviousLayer => SpecFields(m, "previous_layer", {})
       case SetProfile(profile) =>
         SpecFields(m, "set_profile", {"profile"}) && Holds(m, "profile", Str(profile)) && IsProfileId(profile)
  }

  lemma TruncateExactly(x: real, t: int)
    ensures Truncate(x) == t <==> TruncatesTo(x, t)
  {
  }

  lemma TimeoutExactly(m: Entries, timeout: Option<int>)
    ensures TimeoutDenotes(m, timeout)
       <==> var v := Get(m, "timeout_seconds");
            (v.Null? || IsNumber(v)) && TimeoutOf(v) == timeout
  {
    var v := Get(m, "timeout_seconds");
    if IsNumber(v) && timeout.Some? { TruncateExactly(NumberOf(v), timeout.value); }
  }

  lemma SpecListExactly(v: Value, depth: nat, a: Action)
    requires a.Hotkey? || a.Command?
    ensures ParseSpec(v, depth) == Some(a) <==> SpecDenotes(v, depth, a)
  {
    if v.Table? {
      var m := v.entries;
      if "keys" in m && a.Hotkey? { StringsExactly(m["keys"], a.keys); }
      if a.Command? {
        TimeoutExactly(m, a.timeout);
        if "argv" in m { StringsExactly(m["argv"], a.argv); }
      }
    }
  }

  lemma SpecDelayExactly(v: Value, depth: nat, ms: int)
    ensures ParseSpec(v, depth) == Some(Delay(ms)) <==> SpecDenotes(v, depth, Delay(ms))
  {
    if v.Table? && "milliseconds" in v.entries && IsNumber(v.entries["milliseconds"]) {
      TruncateExactly(NumberOf(v.entries["milliseconds"]), ms);
    }
  }

  lemma SpecLeafExactly(v: Value, depth: nat, a: Action)
    requires !a.Macro?
    ensures ParseSpec(v, depth) == Some(a) <==> SpecDenotes(v, depth, a)
  {
    if a.Hotkey? || a.Command? { SpecListExactly(v, depth, a); } else if a.Delay? { SpecDelayExactly(v, depth, a.milliseconds); }
  }

  /** A spec is accepted exactly as the action it denotes. */
  lemma {:induction false} SpecExactly(v: Value, depth: nat, a: Action)
    ensures ParseSpec(v, depth) == Some(a) <==> SpecDenotes(v, depth, a)
    decreases a
  {
    if !a.Macro? {
      SpecLeafExactly(v, depth, a);
    } else if v.Table? && "steps" in v.entries && v.entries["steps"].Arr? {
      var items := v.entries["steps"].items;
      if |items| == |a.steps| {
        forall i | 0 <= i < |items|
          ensures ParseSpec(items[i], depth + 1) == Some(a.steps[i]) <==> SpecDenotes(items[i], depth + 1, a.steps[i])
        {
          SpecExactly(items[i], depth + 1, a.steps[i]);
        }
      }
      StepSpecsExactly(items, depth + 1, a.steps);
    }
  }

  lemma {:induction false} StepSpecsExactly(items: seq<Value>, depth: nat, steps: seq<Action>)
    ensures ParseStepSpecs(items, depth) == Some(steps)
       <==> |items| == |steps| && forall i :: 0 <= i < |steps| ==> ParseSpec(items[i], depth) == Some(steps[i])
    decreases |items|
  {
    if items != [] && steps != [] {
      StepSpecsExactly(items[1..], depth, steps[1..]);
      assert steps == [steps[0]] + steps[1..];
      assert forall i :: 1 <= i < |items| ==> items[i] == items[1..][i - 1];
      assert forall i :: 1 <= i < |steps| ==> steps[i] == steps[1..][i - 1];
    }
  }
}
