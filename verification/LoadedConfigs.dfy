/** Exactly which configurations loading gives (`control/config.py`), which of them are lost when
    they are printed, and which are printed without loss. */
module LoadedConfigs {
  import opened Wrappers
  import opened ControlModel
  import opened Toml
  import opened ConfigParser
  import opened ActionSpec
  import opened Serializer
  import opened ConfigRoundTrip
  import D = DraftModel

  // ---- Actions as data ----

  /** Schema 1 has no actions on the daemon's own context, at any depth. */
  predicate AllowedIn(a: Action, version: int) {
    match a
    case Macro(steps) => forall s :: s in steps ==> AllowedIn(s, version)
    case _ => a.SetLayer? || a.NextLayer? || a.PreviousLayer? || a.SetProfile? ==> version >= 2
  }

  /** Data that parses to the action: its spec, but with every timeout, a zero one too. */
  function ActionData(a: Action): Value
    decreases a, 1
  {
    match a
    case Command(argv, Some(t)) =>
      Object(map["type" := Str("command"), "argv" := Arr(StrItems(argv)), "timeout_seconds" := Int(t)])
    case Macro(steps) => Object(map["type" := Str("macro"), "steps" := Arr(StepData(steps))])
    case _ => ActionToSpec(a)
  }

  function StepData(steps: seq<Action>): (r: seq<Value>)
    ensures |r| == |steps|
    decreases steps, 0
  {
    if steps == [] then [] else [ActionData(steps[0])] + StepData(steps[1..])
  }

  lemma {:induction false} ActionDataParses(a: Action, version: int)
    requires WfAction(a) && AllowedIn(a, version)
    ensures ParseAction(ActionData(a), version) == Some(a)
    decreases a, 1
  {
    match a {
      case Macro(steps) => StepDataParses(steps, version);
      case _ => LeafDataParses(a, version);
    }
  }

  lemma LeafDataParses(a: Action, version: int)
    requires WfAction(a) && AllowedIn(a, version) && !a.Macro?
    ensures ParseAction(ActionData(a), version) == Some(a)
  {
    match a {
      case Hotkey(keys) => StringItemsInverse(keys);
      case Command(argv, timeout) => CommandDataParses(argv, timeout, version);
      case _ =>
    }
  }

  lemma CommandDataParses(argv: seq<string>, timeout: Option<int>, version: int)
    requires NonEmptyStrings(argv)
    ensures ParseAction(ActionData(Command(argv, timeout)), version) == Some(Command(argv, timeout))
  {
    StringItemsInverse(argv);
  }

  lemma {:induction false} StepDataParses(steps: seq<Action>, version: int)
    requires forall s :: s in steps ==> WfAction(s) && AllowedIn(s, version)
    ensures ParseSteps(StepData(steps), version) == Some(steps)
    decreases steps, 0
  {
    if steps != [] {
      ActionDataParses(steps[0], version);
      StepDataParses(steps[1..], version);
      ParseStepsCons(StepData(steps), version, steps);
    }
  }

  lemma ParseStepsCons(items: seq<Value>, version: int, steps: seq<Action>)
    requires items != [] && steps != []
    requires ParseAction(items[0], version) == Some(steps[0]) && ParseSteps(items[1..], version) == Some(steps[1..])
    ensures ParseSteps(items, version) == Some(steps)
  {
    assert steps == [steps[0]] + steps[1..];
  }

  lemma {:induction false} ParsedIsAllowed(v: Value, version: int)
    requires ParseAction(v, version).Some?
    ensures AllowedIn(ParseAction(v, version).value, version)
    decreases v, 1
  {
    if v.entries["type"] == Str("macro") { ParsedAreAllowed(v.entries["steps"].items, version); }
  }

  lemma {:induction false} ParsedAreAllowed(items: seq<Value>, version: int)
    requires ParseSteps(items, version).Some?
    ensures forall s :: s in ParseSteps(items, version).value ==> AllowedIn(s, version)
    decreases items, 0
  {
    if items != [] {
      ParsedIsAllowed(items[0], version);
      ParsedAreAllowed(items[1..], version);
    }
  }

  // ---- Tables as data ----

  predicate ControlsAllowed(controls: map<string, Action>, version: int) {
    WfControls(controls) && forall c :: c in controls ==> AllowedIn(controls[c], version)
  }

  function ControlsData(controls: map<string, Action>): Entries {
    map c | c in controls :: Table(map["action" := ActionData(controls[c])], false)
  }

  lemma ControlDataParses(c: string, a: Action, version: int)
    requires IsControl(c) && WfAction(a) && AllowedIn(a, version)
    ensures ParseControl(c, Table(map["action" := ActionData(a)], false), version) == Some(Some(a))
  {
    ActionDataParses(a, version);
  }

  lemma ControlsDataParse(controls: map<string, Action>, version: int)
    requires ControlsAllowed(controls, version)
    ensures ParseControls(ControlsData(controls), version) == Some(controls)
  {
    var m := ControlsData(controls);
    forall c | c in m ensures ParseControl(c, m[c], version) == Some(Some(controls[c])) {
      ControlDataParses(c, controls[c], version);
    }
    ParseEachControl(m, version, controls);
  }

  lemma ParsedControlsAllowed(m: Entries, version: int)
    requires ParseControls(m, version).Some?
    ensures ControlsAllowed(ParseControls(m, version).value, version)
  {
    var controls := ParseControls(m, version).value;
    forall c | c in controls ensures AllowedIn(controls[c], version) {
      ParsedIsAllowed(m[c].entries["action"], version);
    }
  }

  lemma {:induction false} EverythingAllowed(a: Action)
    ensures AllowedIn(a, 2)
  {
    if a.Macro? {
      forall s | s in a.steps ensures AllowedIn(s, 2) { EverythingAllowed(s); }
    }
  }

  function LayersData(layers: map<string, LayerConfig>): Entries {
    map l | l in layers :: Table(map["controls" := Table(ControlsData(layers[l].controls), false)], false)
  }

  lemma LayerDataParses(l: string, controls: map<string, Action>)
    requires IsLayerId(l) && WfControls(controls)
    ensures ParseLayer(l, Table(map["controls" := Table(ControlsData(controls), false)], false))
         == Some(LayerConfig(l, controls))
  {
    forall c | c in controls ensures AllowedIn(controls[c], 2) { EverythingAllowed(controls[c]); }
    ControlsDataParse(controls, 2);
  }

  function ProfileData(prof: ProfileConfig): Value {
    Table(map["layers" := Table(LayersData(prof.layers), false)], false)
  }

  lemma LayersDataParse(prof: ProfileConfig, p: string)
    requires ProfileAsLoaded(p, prof)
    ensures ParseLayers(LayersData(prof.layers)) == Some(prof.layers)
  {
    var m := LayersData(prof.layers);
    forall l | l in m ensures ParseLayer(l, m[l]) == Some(prof.layers[l]) {
      LayerDataParses(l, prof.layers[l].controls);
    }
    ParseEachLayer(m, prof.layers);
  }

  lemma ProfileDataParses(p: string, prof: ProfileConfig)
    requires ProfileAsLoaded(p, prof)
    ensures ParseProfile(p, ProfileData(prof)) == Some(prof)
  {
    LayersDataParse(prof, p);
  }

  function ProfilesData(profiles: map<string, ProfileConfig>): Entries {
    map p | p in profiles :: ProfileData(profiles[p])
  }

  lemma ProfilesDataParse(profiles: map<string, ProfileConfig>)
    requires forall p :: p in profiles ==> ProfileAsLoaded(p, profiles[p])
    ensures ParseProfiles(ProfilesData(profiles)) == Some(profiles)
  {
    var m := ProfilesData(profiles);
    forall p | p in m ensures ParseProfile(p, m[p]) == Some(profiles[p]) {
      ProfileDataParses(p, profiles[p]);
    }
    ParseAllExactly(m, ParseProfile, m.Keys, profiles);
  }

  // ---- What loading gives ----

  /** Some decoded file parses to the configuration. */
  ghost predicate Loadable(cfg: LayeredControlConfig) {
    exists data :: ParseConfig(data) == Some(cfg)
  }

  /** What schema 1 makes of a table of controls. */
  function OldConfig(controls: map<string, Action>): LayeredControlConfig {
    LayeredControlConfig(1, "default", GENERAL,
                         map["default" := ProfileConfig("default", map[GENERAL := LayerConfig(GENERAL, controls)])])
  }

  function GeneralControls(cfg: LayeredControlConfig): map<string, Action> {
    if cfg.defaultProfile in cfg.profiles && GENERAL in cfg.profiles[cfg.defaultProfile].layers
    then cfg.profiles[cfg.defaultProfile].layers[GENERAL].controls else map[]
  }

  predicate AsLoaded(cfg: LayeredControlConfig) {
    if cfg.schemaVersion == 1 then
      cfg == OldConfig(GeneralControls(cfg)) && ControlsAllowed(GeneralControls(cfg), 1)
    else
      && cfg.schemaVersion == 2 && IsProfileId(cfg.defaultProfile) && IsLayerId(cfg.initialLayer)
      && cfg.defaultProfile in cfg.profiles
      && forall p :: p in cfg.profiles ==> ProfileAsLoaded(p, cfg.profiles[p])
  }

  function OldData(controls: map<string, Action>): Entries {
    map["schema_version" := Int(1), "controls" := Table(ControlsData(controls), false)]
  }

  lemma OldDataParses(controls: map<string, Action>)
    requires ControlsAllowed(controls, 1)
    ensures ParseConfig(OldData(controls)) == Some(OldConfig(controls))
  {
    var data := OldData(controls);
    assert data["schema_version"] == Int(1) && data["controls"] == Table(ControlsData(controls), false);
    ControlsDataParse(controls, 1);
  }

  function DataOf(cfg: LayeredControlConfig): Entries {
    Header(cfg)["profiles" := Table(ProfilesData(cfg.profiles), false)]
  }

  lemma DataOfParses(cfg: LayeredControlConfig)
    requires AsLoaded(cfg) && cfg.schemaVersion == 2
    ensures ParseConfig(DataOf(cfg)) == Some(cfg)
  {
    ProfilesDataParse(cfg.profiles);
    assert cfg.defaultProfile in ProfilesData(cfg.profiles);
    ParseSomeProfiles(cfg, ProfilesData(cfg.profiles));
  }

  lemma ParsedAsLoaded(data: Entries)
    requires ParseConfig(data).Some?
    ensures AsLoaded(ParseConfig(data).value)
  {
    ParseConfigLoads(data);
    if EqualsNumber(Get(data, "schema_version"), 1) {
      var m := SubTable(data, "controls").value;
      ParsedControlsAllowed(m, 1);
      OldGeneral(ParseControls(m, 1).value);
    }
  }

  lemma OldGeneral(controls: map<string, Action>)
    ensures GeneralControls(OldConfig(controls)) == controls
  {
  }

  /** The image of the loader: exactly the schema-1 configurations of one general layer without
      context actions, and the schema-2 configurations whose identifiers are valid and agree with
      their keys, whose default profile exists and whose profiles have a general layer. */
  lemma LoadableExactly(cfg: LayeredControlConfig)
    ensures Loadable(cfg) <==> AsLoaded(cfg)
  {
    if Loadable(cfg) {
      var data :| ParseConfig(data) == Some(cfg);
      ParsedAsLoaded(data);
    } else if AsLoaded(cfg) {
      if cfg.schemaVersion == 1 { OldDataParses(GeneralControls(cfg)); } else { DataOfParses(cfg); }
    }
  }

  // ---- Loaded configurations whose text is lost ----

  predicate OldSchema(cfg: LayeredControlConfig) { cfg.schemaVersion != 2 }

  predicate UnmappedDefault(cfg: LayeredControlConfig)
    requires cfg.defaultProfile in cfg.profiles
  {
    !HasMapping(cfg.profiles[cfg.defaultProfile])
  }

  predicate MapsBesideGeneral(cfg: LayeredControlConfig) {
    exists p :: p in cfg.profiles && HasMapping(cfg.profiles[p]) && !MapsGeneral(cfg.profiles[p])
  }

  predicate UnprintableName(cfg: LayeredControlConfig) {
    exists p :: p in cfg.profiles && HasMapping(cfg.profiles[p]) && EndsInNewline(p)
  }

  lemma LoadableIsLoaded(cfg: LayeredControlConfig)
    requires Loadable(cfg)
    ensures IsLoaded(cfg)
  {
    var data :| ParseConfig(data) == Some(cfg);
    ParseConfigLoads(data);
  }

  /** A configuration with a default profile prints to text that does not load exactly when it is
      in one of four families; those that were loaded are among them. */
  lemma LostExactly(cfg: LayeredControlConfig)
    requires WfConfig(cfg) && cfg.defaultProfile in cfg.profiles
    ensures Load(ConfigText(cfg)).None? <==>
              OldSchema(cfg) || UnmappedDefault(cfg) || MapsBesideGeneral(cfg) || UnprintableName(cfg)
  {
    RoundTripExactly(cfg);
    LostWhen(cfg);
  }

  lemma LostWhen(cfg: LayeredControlConfig)
    requires cfg.defaultProfile in cfg.profiles
    ensures !Survives(cfg) <==>
              OldSchema(cfg) || UnmappedDefault(cfg) || MapsBesideGeneral(cfg) || UnprintableName(cfg)
  {
  }

  /** Which of the four families a configuration is in. */
  predicate InFamilies(cfg: LayeredControlConfig, old_: bool, unmapped: bool, beside: bool, unprintable: bool)
    requires cfg.defaultProfile in cfg.profiles
  {
    && (OldSchema(cfg) <==> old_) && (UnmappedDefault(cfg) <==> unmapped)
    && (MapsBesideGeneral(cfg) <==> beside) && (UnprintableName(cfg) <==> unprintable)
  }

  /** Some file loads as the configuration, and the configuration's own text does not load. */
  ghost predicate LoadedAndLost(cfg: LayeredControlConfig) {
    Loadable(cfg) && Load(ConfigText(cfg)).None?
  }

  /** One profile, the default one, with a general layer and another. */
  function OneProfile(p: string, general: map<string, Action>, other: map<string, Action>): LayeredControlConfig {
    LayeredControlConfig(2, p, GENERAL,
                         map[p := ProfileConfig(p, map[GENERAL := LayerConfig(GENERAL, general),
                                                       "layer_1" := LayerConfig("layer_1", other)])])
  }

  lemma OneProfileFamilies(p: string, general: map<string, Action>, other: map<string, Action>)
    ensures InFamilies(OneProfile(p, general, other), false, general == map[] && other == map[],
                       general == map[] && other != map[], EndsInNewline(p) && (general != map[] || other != map[]))
  {
    var prof := OneProfile(p, general, other).profiles[p];
    assert prof.layers[GENERAL].controls == general && prof.layers["layer_1"].controls == other;
  }

  lemma OneProfileLoadable(p: string, general: map<string, Action>, other: map<string, Action>)
    requires IsProfileId(p) && WfControls(general) && WfControls(other)
    ensures Loadable(OneProfile(p, general, other))
  {
    var cfg := OneProfile(p, general, other);
    assert IsLayerId(GENERAL) && IsLayerId("layer_1");
    assert ProfileAsLoaded(p, cfg.profiles[p]);
    LoadableExactly(cfg);
  }

  lemma LostOne(p: string, general: map<string, Action>, other: map<string, Action>)
    requires IsProfileId(p) && WfControls(general) && WfControls(other)
    requires general == map[] || EndsInNewline(p)
    ensures LoadedAndLost(OneProfile(p, general, other))
  {
    var cfg := OneProfile(p, general, other);
    OneProfileLoadable(p, general, other);
    LoadableIsLoaded(cfg);
    OneProfileFamilies(p, general, other);
    LostExactly(cfg);
  }

  lemma OldFamilies(controls: map<string, Action>)
    requires controls != map[]
    ensures InFamilies(OldConfig(controls), true, false, false, false)
  {
    var profiles := OldConfig(controls).profiles;
    assert profiles["default"].layers[GENERAL].controls == controls;
    DefaultName();
  }

  lemma DefaultName()
    ensures !EndsInNewline("default")
  {
  }

  lemma OldIsLost(controls: map<string, Action>)
    requires ControlsAllowed(controls, 1)
    ensures LoadedAndLost(OldConfig(controls))
  {
    OldDataParses(controls);
    LostIfOld(OldConfig(controls));
  }

  lemma LostIfOld(cfg: LayeredControlConfig)
    requires Loadable(cfg) && OldSchema(cfg)
    ensures LoadedAndLost(cfg)
  {
    LoadableIsLoaded(cfg);
    LostExactly(cfg);
  }

  lemma OneControl()
    ensures ControlsAllowed(map["A1" := NoOp], 1) && "A1" in map["A1" := NoOp]
  {
    assert IsControl("A1");
  }

  /** Each family holds a configuration that a file loads as, and that is in no other family. */
  lemma LoadedButLost()
    ensures var c := OldConfig(map["A1" := NoOp]);
            LoadedAndLost(c) && InFamilies(c, true, false, false, false)
    ensures var c := OneProfile("a", map[], map[]);
            LoadedAndLost(c) && InFamilies(c, false, true, false, false)
    ensures var c := OneProfile("a", map[], map["A1" := NoOp]);
            LoadedAndLost(c) && InFamilies(c, false, false, true, false)
    ensures var c := OneProfile("a\n", map["A1" := NoOp], map[]);
            LoadedAndLost(c) && InFamilies(c, false, false, false, true)
  {
    var some: map<string, Action> := map["A1" := NoOp];
    OneControl();
    assert IsPlainProfileId("a") && "a\n"[..1] == "a";
    OldIsLost(some);
    OldFamilies(some);
    LostAndOnly("a", map[], map[]);
    LostAndOnly("a", map[], some);
    LostAndOnly("a\n", some, map[]);
  }

  lemma LostAndOnly(p: string, general: map<string, Action>, other: map<string, Action>)
    requires IsProfileId(p) && WfControls(general) && WfControls(other)
    requires general == map[] || EndsInNewline(p)
    ensures LoadedAndLost(OneProfile(p, general, other))
    ensures InFamilies(OneProfile(p, general, other), false, general == map[] && other == map[],
                       general == map[] && other != map[], EndsInNewline(p) && (general != map[] || other != map[]))
  {
    LostOne(p, general, other);
    OneProfileFamilies(p, general, other);
  }

  // ---- Configurations printed without loss ----

  predicate LosslessControls(controls: map<string, Action>) {
    forall c :: c in controls ==> NoZeroTimeout(controls[c])
  }

  predicate LosslessLayers(layers: map<string, LayerConfig>) {
    forall l :: l in layers ==>
      layers[l].layerId == l && layers[l].controls != map[] && LosslessControls(layers[l].controls)
  }

  /** Identifiers agree with keys, every profile has a layer, every layer maps a control, and no
      timeout is zero. */
  predicate Lossless(cfg: LayeredControlConfig) {
    forall p :: p in cfg.profiles ==>
      && cfg.profiles[p].profileId == p && HasMapping(cfg.profiles[p]) && LosslessLayers(cfg.profiles[p].layers)
  }

  lemma NormalControlsSame(controls: map<string, Action>)
    ensures NormalControls(controls) == controls <==> LosslessControls(controls)
  {
    forall c | c in controls ensures NormalAction(controls[c]) == controls[c] <==> NoZeroTimeout(controls[c]) {
      NormalActionFixed(controls[c]);
    }
    assert NormalControls(controls) == controls <==> forall c :: c in controls ==> NormalControls(controls)[c] == controls[c];
  }

  lemma KeptLayersSame(layers: map<string, LayerConfig>)
    ensures KeptLayers(layers) == layers <==> LosslessLayers(layers)
  {
    var kept := KeptLayers(layers);
    forall l | l in layers ensures NormalControls(layers[l].controls) == layers[l].controls <==> LosslessControls(layers[l].controls) {
      NormalControlsSame(layers[l].controls);
    }
    if kept == layers {
      forall l | l in layers
        ensures layers[l].layerId == l && layers[l].controls != map[] && LosslessControls(layers[l].controls)
      {
        assert l in kept && kept[l] == layers[l];
      }
    }
  }

  lemma NormalConfigSame(cfg: LayeredControlConfig)
    ensures NormalConfig(cfg) == cfg <==> Lossless(cfg)
  {
    var normal := NormalConfig(cfg);
    forall p | p in cfg.profiles
      ensures KeptLayers(cfg.profiles[p].layers) == cfg.profiles[p].layers <==> LosslessLayers(cfg.profiles[p].layers)
    {
      KeptLayersSame(cfg.profiles[p].layers);
    }
    if normal == cfg {
      forall p | p in cfg.profiles
        ensures cfg.profiles[p].profileId == p && HasMapping(cfg.profiles[p]) && LosslessLayers(cfg.profiles[p].layers)
      {
        assert p in normal.profiles && normal.profiles[p] == cfg.profiles[p];
      }
    }
    if Lossless(cfg) { assert normal.profiles == cfg.profiles; }
  }

  /** What is saved is what was edited exactly when the draft is valid and nothing of it is left
      out in printing. */
  lemma PreservedExactly(cfg: LayeredControlConfig)
    requires WfConfig(cfg)
    ensures Load(ConfigText(cfg)) == Some(cfg) <==> Survives(cfg) && Lossless(cfg)
  {
    RoundTripExactly(cfg);
    NormalConfigSame(cfg);
  }

  /** A general layer alone. */
  function GeneralOnly(controls: map<string, Action>): LayeredControlConfig {
    LayeredControlConfig(2, "a", GENERAL, map["a" := ProfileConfig("a", map[GENERAL := LayerConfig(GENERAL, controls)])])
  }

  lemma AddLayerToOne(controls: map<string, Action>)
    ensures D.AddLayer(GeneralOnly(controls), "a", "layer_1") == D.Edited(OneProfile("a", controls, map[]))
  {
    assert IsPlainProfileId("a") && IsLayerId("layer_1");
    var cfg, draft := GeneralOnly(controls), OneProfile("a", controls, map[]);
    assert cfg.profiles["a"].layers["layer_1" := LayerConfig("layer_1", map[])] == draft.profiles["a"].layers;
    assert cfg.profiles["a" := draft.profiles["a"]] == draft.profiles;
  }

  lemma AddedLayerLost(controls: map<string, Action>)
    requires WfControls(controls) && controls != map[] && LosslessControls(controls)
    ensures var draft := OneProfile("a", controls, map[]);
            WfConfig(draft) && Survives(draft) && !Lossless(draft) && Load(ConfigText(draft)) == Some(GeneralOnly(controls))
  {
    var draft := OneProfile("a", controls, map[]);
    DraftSurvives(controls);
    RoundTripExactly(draft);
    assert draft.profiles["a"].layers["layer_1"].controls == map[];
  }

  /** A layer just added passes validation and is not there after the save. */
  lemma AddedLayerVanishes()
    ensures var cfg, draft := GeneralOnly(map["A1" := NoOp]), OneProfile("a", map["A1" := NoOp], map[]);
            && D.AddLayer(cfg, "a", "layer_1") == D.Edited(draft)
            && Survives(draft) && !Lossless(draft) && Load(ConfigText(draft)) == Some(cfg)
  {
    var some: map<string, Action> := map["A1" := NoOp];
    OneControl();
    AddLayerToOne(some);
    AddedLayerLost(some);
  }

  lemma DraftSurvives(controls: map<string, Action>)
    requires WfControls(controls) && controls != map[] && LosslessControls(controls)
    ensures var draft := OneProfile("a", controls, map[]);
            WfConfig(draft) && Survives(draft) && NormalConfig(draft) == GeneralOnly(controls)
  {
    var draft, cfg := OneProfile("a", controls, map[]), GeneralOnly(controls);
    assert IsPlainProfileId("a") && IsLayerId(GENERAL) && IsLayerId("layer_1");
    var layers := draft.profiles["a"].layers;
    assert layers[GENERAL].controls == controls && layers["layer_1"].controls == map[];
    NormalControlsSame(controls);
    assert KeptLayers(layers) == cfg.profiles["a"].layers;
    assert NormalConfig(draft).profiles == cfg.profiles;
  }
}
