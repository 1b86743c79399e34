/** Identifiers, actions and the layered configuration: the immutable data every other module
    works on (`control/models.py`, the action classes of `control/actions.py`). */
module ControlModel {
  import opened Wrappers

  // ---- Identifiers ----

  const GENERAL := "general"

  /** `LayerId`, in value order. */
  const LAYER_NAMES: seq<string> :=
    [GENERAL, "layer_1", "layer_2", "layer_3", "layer_4", "layer_5", "layer_6", "layer_7", "layer_8"]

  /** `_CANONICAL_CONTROLS`, which lists every `OfficialControl` once. */
  const CANONICAL_CONTROLS: seq<string> :=
    ["A1", "A2", "A3", "A4", "A5", "A6", "A7", "A8", "A9", "A10", "A11", "A12",
     "AL", "AP", "AR", "BL", "BP", "BR", "CL", "CP", "CR", "DL", "DP", "DR"]

  predicate IsLayerId(s: string) { s in LAYER_NAMES }

  predicate IsControl(s: string) { s in CANONICAL_CONTROLS }

  predicate IsLower(c: char) { 'a' <= c <= 'z' }

  predicate IsProfileChar(c: char) { IsLower(c) || '0' <= c <= '9' || c == '_' || c == '-' }

  /** The profile identifiers the pattern describes. */
  predicate IsPlainProfileId(s: string) {
    1 <= |s| <= 64 && IsLower(s[0]) && forall i :: 0 <= i < |s| ==> IsProfileChar(s[i])
  }

  /** The profile identifiers the pattern accepts: `$` also matches just before a final newline. */
  predicate IsProfileId(s: string) {
    || IsPlainProfileId(s)
    || (s != "" && s[|s| - 1] == '\n' && IsPlainProfileId(s[..|s| - 1]))
  }

  // ---- Events ----

  datatype ControlPhase = Down | Up

  datatype OfficialControlEvent = OfficialControlEvent(control: string, phase: ControlPhase, timestampNs: nat)

  // ---- Actions ----

  datatype Action =
    | Hotkey(keys: seq<string>)
    | Text(value: string)
    | Command(argv: seq<string>, timeout: Option<int>)
    | Delay(milliseconds: int)
    | Macro(steps: seq<Action>)
    | NoOp
    | DebugLog(message: string)
    | SetLayer(layer: string)
    | NextLayer
    | PreviousLayer
    | SetProfile(profile: string)

  predicate NonEmptyStrings(ss: seq<string>) { ss != [] && "" !in ss }

  /** What the action constructors accept. */
  predicate WfAction(a: Action) {
    match a
    case Hotkey(keys) => NonEmptyStrings(keys)
    case Command(argv, _) => NonEmptyStrings(argv)
    case Delay(ms) => 0 <= ms
    case Macro(steps) => forall s :: s in steps ==> WfAction(s)
    case _ => true
  }

  // ---- Layered configuration ----

  datatype LayerConfig = LayerConfig(layerId: string, controls: map<string, Action>)

  datatype ProfileConfig = ProfileConfig(profileId: string, layers: map<string, LayerConfig>)

  datatype LayeredControlConfig = LayeredControlConfig(
    schemaVersion: int,
    defaultProfile: string,
    initialLayer: string,
    profiles: map<string, ProfileConfig>)

  predicate WfControls(controls: map<string, Action>) {
    forall c :: c in controls ==> IsControl(c) && WfAction(controls[c])
  }

  predicate WfProfile(prof: ProfileConfig) {
    forall l :: l in prof.layers ==> IsLayerId(l) && WfControls(prof.layers[l].controls)
  }

  /** What the classes of the keys, identifiers and actions guarantee of any configuration object. */
  predicate WfConfig(cfg: LayeredControlConfig) {
    && IsProfileId(cfg.defaultProfile)
    && IsLayerId(cfg.initialLayer)
    && forall p :: p in cfg.profiles ==> IsProfileId(p) && WfProfile(cfg.profiles[p])
  }

  /** What loading adds: the default profile exists and every profile has a general layer. */
  predicate IsLoaded(cfg: LayeredControlConfig) {
    && WfConfig(cfg)
    && cfg.defaultProfile in cfg.profiles
    && forall p :: p in cfg.profiles ==> GENERAL in cfg.profiles[p].layers
  }
}
