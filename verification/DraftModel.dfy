/** Draft edits as functions on configurations (`configurator/draft.py`), and what every sequence of
    edits keeps: a default profile, layers, and references that resolve. */
module DraftModel {
  import opened Wrappers
  import opened ControlModel

  /** What an edit comes to: refused, accepted with nothing to do, or a new configuration. */
  datatype Edit = Rejected | Unchanged | Edited(config: LayeredControlConfig)

  type Profiles = map<string, ProfileConfig>

  // ---- References ----

  /** The in-place fix of one action after a profile, or a layer, is renamed. Only top-level actions
      are fixed: references inside macros are not followed. */
  function RetargetProfile(a: Action, old_: string, new_: string): Action {
    if a == SetProfile(old_) then SetProfile(new_) else a
  }

  function RetargetLayer(a: Action, old_: string, new_: string): Action {
    if a == SetLayer(old_) then SetLayer(new_) else a
  }

  function MapControls(controls: map<string, Action>, f: Action -> Action): map<string, Action> {
    map c | c in controls :: f(controls[c])
  }

  function MapLayers(layers: map<string, LayerConfig>, f: Action -> Action): map<string, LayerConfig> {
    map l | l in layers :: layers[l].(controls := MapControls(layers[l].controls, f))
  }

  function MapProfiles(profiles: Profiles, f: Action -> Action): Profiles {
    map p | p in profiles :: profiles[p].(layers := MapLayers(profiles[p].layers, f))
  }

  function ProfileFix(old_: string, new_: string): Action -> Action {
    a => RetargetProfile(a, old_, new_)
  }

  function LayerFix(old_: string, new_: string): Action -> Action {
    a => RetargetLayer(a, old_, new_)
  }

  predicate LayersRefer(layers: map<string, LayerConfig>, a: Action) {
    exists l, c :: l in layers && c in layers[l].controls && layers[l].controls[c] == a
  }

  /** Some top-level action of the configuration is `a`. */
  predicate Refers(profiles: Profiles, a: Action) {
    exists p :: p in profiles && LayersRefer(profiles[p].layers, a)
  }

  function RenameKey<T>(m: map<string, T>, old_: string, new_: string): map<string, T>
    requires old_ in m
  {
    map k | k in m.Keys - {old_} + {new_} :: if k == new_ then m[old_] else m[k]
  }

  // ---- Edits ----

  function AddProfile(cfg: LayeredControlConfig, id: string): Edit {
    if !IsProfileId(id) || id in cfg.profiles then Rejected
    else
      Edited(cfg.(profiles := cfg.profiles[id := ProfileConfig(id, map[GENERAL := LayerConfig(GENERAL, map[])])]))
  }

  function RenameProfile(cfg: LayeredControlConfig, old_: string, new_: string): Edit {
    if !IsProfileId(old_) || !IsProfileId(new_) || old_ !in cfg.profiles || new_ in cfg.profiles then Rejected
    else
      Edited(cfg.(
        defaultProfile := if cfg.defaultProfile == old_ then new_ else cfg.defaultProfile,
        profiles := MapProfiles(RenameKey(cfg.profiles, old_, new_), ProfileFix(old_, new_))))
  }

  function RemoveProfile(cfg: LayeredControlConfig, id: string): Edit {
    if !IsProfileId(id) || id !in cfg.profiles || |cfg.profiles| <= 1 || id == cfg.defaultProfile
       || Refers(cfg.profiles, SetProfile(id)) then Rejected
    else Edited(cfg.(profiles := cfg.profiles - {id}))
  }

  function SetDefaultProfile(cfg: LayeredControlConfig, id: string): Edit {
    if !IsProfileId(id) || id !in cfg.profiles then Rejected
    else if cfg.defaultProfile == id then Unchanged
    else Edited(cfg.(defaultProfile := id))
  }

  function PutLayers(cfg: LayeredControlConfig, p: string, layers: map<string, LayerConfig>): LayeredControlConfig {
    cfg.(profiles := cfg.profiles[p := ProfileConfig(p, layers)])
  }

  function AddLayer(cfg: LayeredControlConfig, p: string, l: string): Edit {
    if !IsProfileId(p) || !IsLayerId(l) || p !in cfg.profiles || l in cfg.profiles[p].layers then Rejected
    else Edited(PutLayers(cfg, p, cfg.profiles[p].layers[l := LayerConfig(l, map[])]))
  }

  function LayerRenamed(cfg: LayeredControlConfig, p: string, old_: string, new_: string): LayeredControlConfig
    requires p in cfg.profiles && old_ in cfg.profiles[p].layers
  {
    var layers := MapLayers(RenameKey(cfg.profiles[p].layers, old_, new_), LayerFix(old_, new_));
    PutLayers(cfg, p, layers).(initialLayer := if cfg.initialLayer == old_ then new_ else cfg.initialLayer)
  }

  function RenameLayer(cfg: LayeredControlConfig, p: string, old_: string, new_: string): Edit {
    if !IsProfileId(p) || !IsLayerId(old_) || !IsLayerId(new_) || p !in cfg.profiles
       || old_ !in cfg.profiles[p].layers || new_ in cfg.profiles[p].layers then Rejected
    else Edited(LayerRenamed(cfg, p, old_, new_))
  }

  /** A layer is kept if any profile's top-level actions refer to its name. */
  function RemoveLayer(cfg: LayeredControlConfig, p: string, l: string): Edit {
    if !IsProfileId(p) || !IsLayerId(l) || p !in cfg.profiles || l !in cfg.profiles[p].layers || l == GENERAL
       || |cfg.profiles[p].layers| <= 1 || Refers(cfg.profiles, SetLayer(l)) then Rejected
    else Edited(PutLayers(cfg, p, cfg.profiles[p].layers - {l}))
  }

  function SetInitialLayer(cfg: LayeredControlConfig, l: string): Edit {
    if !IsLayerId(l) then Rejected
    else if cfg.initialLayer == l then Unchanged
    else Edited(cfg.(initialLayer := l))
  }

  function SetAction(cfg: LayeredControlConfig, p: string, l: string, c: string, a: Action): Edit {
    if !IsProfileId(p) || !IsLayerId(l) || !IsControl(c) || p !in cfg.profiles || l !in cfg.profiles[p].layers then Rejected
    else
      var layers := cfg.profiles[p].layers;
      Edited(PutLayers(cfg, p, layers[l := LayerConfig(l, layers[l].controls[c := a])]))
  }

  function ClearAction(cfg: LayeredControlConfig, p: string, l: string, c: string): Edit {
    if !IsProfileId(p) || !IsLayerId(l) || !IsControl(c) || p !in cfg.profiles || l !in cfg.profiles[p].layers then Rejected
    else
      var layers := cfg.profiles[p].layers;
      if c !in layers[l].controls then Unchanged
      else Edited(PutLayers(cfg, p, layers[l := LayerConfig(l, layers[l].controls - {c})]))
  }

  // ---- A draft ----

  datatype Rename = Rename(isProfile: bool, path: string, before: string, after: string)

  datatype Draft = Draft(
    base: LayeredControlConfig, working: LayeredControlConfig, dirty: bool, mutations: nat, renames: seq<Rename>)

  datatype Op =
    | OpAddProfile(p: string)
    | OpRenameProfile(p: string, q: string)
    | OpRemoveProfile(p: string)
    | OpSetDefaultProfile(p: string)
    | OpAddLayer(p: string, l: string)
    | OpRenameLayer(p: string, l: string, k: string)
    | OpRemoveLayer(p: string, l: string)
    | OpSetInitialLayer(l: string)
    | OpSetAction(p: string, l: string, c: string, a: Action)
    | OpClearAction(p: string, l: string, c: string)

  function EditOf(cfg: LayeredControlConfig, op: Op): Edit {
    match op
    case OpAddProfile(p) => AddProfile(cfg, p)
    case OpRenameProfile(p, q) => RenameProfile(cfg, p, q)
    case OpRemoveProfile(p) => RemoveProfile(cfg, p)
    case OpSetDefaultProfile(p) => SetDefaultProfile(cfg, p)
    case OpAddLayer(p, l) => AddLayer(cfg, p, l)
    case OpRenameLayer(p, l, k) => RenameLayer(cfg, p, l, k)
    case OpRemoveLayer(p, l) => RemoveLayer(cfg, p, l)
    case OpSetInitialLayer(l) => SetInitialLayer(cfg, l)
    case OpSetAction(p, l, c, a) => SetAction(cfg, p, l, c, a)
    case OpClearAction(p, l, c) => ClearAction(cfg, p, l, c)
  }

  function RecordsOf(op: Op): seq<Rename> {
    match op
    case OpRenameProfile(p, q) => [Rename(true, "profiles." + p, p, q)]
    case OpRenameLayer(p, l, k) => [Rename(false, "profiles." + p + ".layers." + l, l, k)]
    case _ => []
  }

  function Counted(d: Draft, cfg: LayeredControlConfig, renames: seq<Rename>): Draft {
    d.(working := cfg, dirty := true, mutations := d.mutations + 1, renames := d.renames + renames)
  }

  /** An edit that takes effect replaces the working configuration and is counted once. */
  function After(d: Draft, op: Op): Draft {
    match EditOf(d.working, op)
    case Edited(cfg) => Counted(d, cfg, RecordsOf(op))
    case _ => d
  }

  function Fresh(cfg: LayeredControlConfig): Draft { Draft(cfg, cfg, false, 0, []) }

  function Run(d: Draft, ops: seq<Op>): Draft {
    if ops == [] then d else After(Run(d, ops[..|ops| - 1]), ops[|ops| - 1])
  }

  /** Over any edits of a fresh draft: the base never changes, and the draft is dirty exactly when
      an edit has been counted. */
  lemma {:induction false} BaseNeverChanges(cfg: LayeredControlConfig, ops: seq<Op>)
    ensures var d := Run(Fresh(cfg), ops);
            d.base == cfg && (d.dirty <==> d.mutations > 0)
  {
    if ops != [] { BaseNeverChanges(cfg, ops[..|ops| - 1]); }
  }

  // ---- Integrity ----

  /** The default profile exists, and every profile has a layer. */
  predicate Rooted(cfg: LayeredControlConfig) {
    && cfg.defaultProfile in cfg.profiles
    && forall p :: p in cfg.profiles ==> cfg.profiles[p].layers != map[]
  }

  lemma RenameKeyValues<T>(m: map<string, T>, old_: string, new_: string)
    requires old_ in m && new_ !in m
    ensures RenameKey(m, old_, new_).Keys == m.Keys - {old_} + {new_}
    ensures RenameKey(m, old_, new_)[new_] == m[old_]
    ensures forall k :: k in m && k != old_ ==> RenameKey(m, old_, new_)[k] == m[k]
    ensures RenameKey(RenameKey(m, old_, new_), new_, old_) == m
  {
  }

  lemma NonEmptyKeys<T>(m: map<string, T>, k: string)
    requires k in m
    ensures m != map[]
  {
  }

  lemma MapLayersKeys(layers: map<string, LayerConfig>, f: Action -> Action)
    ensures MapLayers(layers, f).Keys == layers.Keys
    ensures MapLayers(layers, f) == map[] <==> layers == map[]
  {
    if layers != map[] {
      var l :| l in layers;
      assert l in MapLayers(layers, f);
    }
  }

  lemma RemoveLeavesSome<T>(m: map<string, T>, k: string)
    requires k in m && |m| > 1
    ensures m - {k} != map[]
  {
    assert |m.Keys| == |m| && |{k}| == 1;
    assert m.Keys != {k};
    var x :| x in m.Keys && x != k;
    assert x in m - {k};
  }

  /** Every edit keeps the default profile and leaves every profile a layer. */
  lemma EditKeepsRooted(cfg: LayeredControlConfig, op: Op)
    requires Rooted(cfg)
    ensures EditOf(cfg, op).Edited? ==> Rooted(EditOf(cfg, op).config)
  {
    match op {
      case OpAddProfile(p) => NonEmptyKeys(map[GENERAL := LayerConfig(GENERAL, map[])], GENERAL);
      case OpRenameProfile(p, q) =>
        if EditOf(cfg, op).Edited? {
          RenameKeyValues(cfg.profiles, p, q);
          forall r | r in cfg.profiles ensures MapLayers(cfg.profiles[r].layers, ProfileFix(p, q)) != map[] {
            MapLayersKeys(cfg.profiles[r].layers, ProfileFix(p, q));
          }
        }
      case OpAddLayer(p, l) =>
        if EditOf(cfg, op).Edited? { NonEmptyKeys(EditOf(cfg, op).config.profiles[p].layers, l); }
      case OpRenameLayer(p, l, k) =>
        if EditOf(cfg, op).Edited? {
          RenameKeyValues(cfg.profiles[p].layers, l, k);
          MapLayersKeys(RenameKey(cfg.profiles[p].layers, l, k), LayerFix(l, k));
          NonEmptyKeys(RenameKey(cfg.profiles[p].layers, l, k), k);
        }
      case OpRemoveLayer(p, l) =>
        if EditOf(cfg, op).Edited? { RemoveLeavesSome(cfg.profiles[p].layers, l); }
      case OpSetAction(p, l, c, a) =>
        if EditOf(cfg, op).Edited? { NonEmptyKeys(EditOf(cfg, op).config.profiles[p].layers, l); }
      case OpClearAction(p, l, c) =>
        if EditOf(cfg, op).Edited? { NonEmptyKeys(EditOf(cfg, op).config.profiles[p].layers, l); }
      case _ =>
    }
  }

  lemma {:induction false} DraftStaysRooted(cfg: LayeredControlConfig, ops: seq<Op>)
    requires Rooted(cfg)
    ensures Rooted(Run(Fresh(cfg), ops).working)
  {
    if ops != [] {
      DraftStaysRooted(cfg, ops[..|ops| - 1]);
      EditKeepsRooted(Run(Fresh(cfg), ops[..|ops| - 1]).working, ops[|ops| - 1]);
    }
  }

  lemma LoadedIsRooted(cfg: LayeredControlConfig)
    requires IsLoaded(cfg)
    ensures Rooted(cfg)
  {
    forall p | p in cfg.profiles ensures cfg.profiles[p].layers != map[] {
      NonEmptyKeys(cfg.profiles[p].layers, GENERAL);
    }
  }

  /** In particular over any edits of a configuration that was loaded. */
  lemma LoadedDraftStaysRooted(cfg: LayeredControlConfig, ops: seq<Op>)
    requires IsLoaded(cfg)
    ensures Rooted(Run(Fresh(cfg), ops).working)
  {
    LoadedIsRooted(cfg);
    DraftStaysRooted(cfg, ops);
  }

  // ---- References that resolve ----

  /** Every top-level SetProfile of the layers names one of the profiles. */
  predicate ProfileTargets(names: set<string>, layers: map<string, LayerConfig>) {
    forall l, c :: l in layers && c in layers[l].controls && layers[l].controls[c].SetProfile? ==>
      layers[l].controls[c].profile in names
  }

  /** Every top-level SetLayer of the layers names one of them. */
  predicate LayerTargets(layers: map<string, LayerConfig>) {
    forall l, c :: l in layers && c in layers[l].controls && layers[l].controls[c].SetLayer? ==>
      layers[l].controls[c].layer in layers
  }

  /** Every top-level SetProfile names a profile. */
  predicate ProfilesClosed(cfg: LayeredControlConfig) {
    forall p :: p in cfg.profiles ==> ProfileTargets(cfg.profiles.Keys, cfg.profiles[p].layers)
  }

  /** Every top-level SetLayer names a layer of its own profile. */
  predicate LayersClosed(cfg: LayeredControlConfig) {
    forall p :: p in cfg.profiles ==> LayerTargets(cfg.profiles[p].layers)
  }

  // ---- Profile references ----

  lemma RetargetedProfiles(names: set<string>, layers: map<string, LayerConfig>, old_: string, new_: string)
    requires ProfileTargets(names, layers)
    ensures ProfileTargets(names - {old_} + {new_}, MapLayers(layers, ProfileFix(old_, new_)))
  {
  }

  lemma RelayeredProfiles(names: set<string>, layers: map<string, LayerConfig>, old_: string, new_: string)
    requires ProfileTargets(names, layers) && old_ in layers && new_ !in layers
    ensures ProfileTargets(names, MapLayers(RenameKey(layers, old_, new_), LayerFix(old_, new_)))
  {
  }

  /** Replacing one profile's layers keeps profile references resolving exactly when theirs do. */
  lemma ReplacedProfileTargets(cfg: LayeredControlConfig, p: string, layers: map<string, LayerConfig>)
    requires ProfilesClosed(cfg) && p in cfg.profiles
    ensures ProfilesClosed(PutLayers(cfg, p, layers)) <==> ProfileTargets(cfg.profiles.Keys, layers)
  {
    var cfg1 := PutLayers(cfg, p, layers);
    assert cfg1.profiles.Keys == cfg.profiles.Keys && cfg1.profiles[p].layers == layers;
  }

  lemma RenameProfileKeepsTargets(cfg: LayeredControlConfig, p: string, q: string)
    requires ProfilesClosed(cfg) && RenameProfile(cfg, p, q).Edited?
    ensures ProfilesClosed(RenameProfile(cfg, p, q).config)
  {
    var cfg1 := RenameProfile(cfg, p, q).config;
    RenameKeyValues(cfg.profiles, p, q);
    forall r | r in cfg1.profiles ensures ProfileTargets(cfg1.profiles.Keys, cfg1.profiles[r].layers) {
      RetargetedProfiles(cfg.profiles.Keys, cfg.profiles[if r == q then p else r].layers, p, q);
    }
  }

  lemma RemoveProfileKeepsTargets(cfg: LayeredControlConfig, p: string)
    requires ProfilesClosed(cfg) && RemoveProfile(cfg, p).Edited?
    ensures ProfilesClosed(RemoveProfile(cfg, p).config)
  {
    var cfg1 := RemoveProfile(cfg, p).config;
    forall q | q in cfg1.profiles ensures ProfileTargets(cfg1.profiles.Keys, cfg1.profiles[q].layers) {
      assert ProfileTargets(cfg.profiles.Keys, cfg.profiles[q].layers) && !LayersRefer(cfg.profiles[q].layers, SetProfile(p));
    }
  }

  lemma SetActionTargets(cfg: LayeredControlConfig, p: string, l: string, c: string, a: Action)
    requires ProfilesClosed(cfg) && SetAction(cfg, p, l, c, a).Edited?
    ensures ProfilesClosed(SetAction(cfg, p, l, c, a).config) <==> (a.SetProfile? ==> a.profile in cfg.profiles)
  {
    var layers := cfg.profiles[p].layers;
    var layers1 := layers[l := LayerConfig(l, layers[l].controls[c := a])];
    ReplacedProfileTargets(cfg, p, layers1);
    assert layers1[l].controls[c] == a;
  }

  /** Whatever layer references do: every edit keeps profile references resolving, except setting an
      action, which keeps them exactly when the new action's own one resolves. */
  lemma EditKeepsProfilesClosed(cfg: LayeredControlConfig, op: Op)
    requires ProfilesClosed(cfg) && EditOf(cfg, op).Edited?
    ensures ProfilesClosed(EditOf(cfg, op).config) <==>
              (op.OpSetAction? && op.a.SetProfile? ==> op.a.profile in cfg.profiles)
  {
    match op {
      case OpRenameProfile(p, q) => RenameProfileKeepsTargets(cfg, p, q);
      case OpRemoveProfile(p) => RemoveProfileKeepsTargets(cfg, p);
      case OpAddLayer(p, l) =>
        ReplacedProfileTargets(cfg, p, cfg.profiles[p].layers[l := LayerConfig(l, map[])]);
      case OpRenameLayer(p, l, k) =>
        RelayeredProfiles(cfg.profiles.Keys, cfg.profiles[p].layers, l, k);
        ReplacedProfileTargets(cfg, p, MapLayers(RenameKey(cfg.profiles[p].layers, l, k), LayerFix(l, k)));
      case OpRemoveLayer(p, l) => ReplacedProfileTargets(cfg, p, cfg.profiles[p].layers - {l});
      case OpSetAction(p, l, c, a) => SetActionTargets(cfg, p, l, c, a);
      case OpClearAction(p, l, c) =>
        var layers := cfg.profiles[p].layers;
        ReplacedProfileTargets(cfg, p, layers[l := LayerConfig(l, layers[l].controls - {c})]);
      case _ =>
    }
  }

  // ---- Layer references ----

  lemma RetargetedLayers(layers: map<string, LayerConfig>, old_: string, new_: string)
    requires LayerTargets(layers)
    ensures LayerTargets(MapLayers(layers, ProfileFix(old_, new_)))
  {
    MapLayersKeys(layers, ProfileFix(old_, new_));
  }

  lemma RelayeredLayers(layers: map<string, LayerConfig>, old_: string, new_: string)
    requires LayerTargets(layers) && old_ in layers && new_ !in layers
    ensures LayerTargets(MapLayers(RenameKey(layers, old_, new_), LayerFix(old_, new_)))
  {
    RenameKeyValues(layers, old_, new_);
    MapLayersKeys(RenameKey(layers, old_, new_), LayerFix(old_, new_));
  }

  /** The name a profile has after the edit. */
  function NameAfter(op: Op, r: string): string {
    if op.OpRenameProfile? && r == op.p then op.q else r
  }

  /** Profile by profile, whatever the others and the profile references do: a profile that is left
      keeps its layer references resolving, except when an action of its own is set, which keeps them
      exactly when the new action's one resolves. */
  lemma EditKeepsLayerTargets(cfg: LayeredControlConfig, op: Op, r: string)
    requires r in cfg.profiles && LayerTargets(cfg.profiles[r].layers) && EditOf(cfg, op).Edited?
    ensures var profiles := EditOf(cfg, op).config.profiles;
            NameAfter(op, r) in profiles ==>
              (LayerTargets(profiles[NameAfter(op, r)].layers) <==>
                 (op.OpSetAction? && op.p == r && op.a.SetLayer? ==> op.a.layer in cfg.profiles[r].layers))
  {
    var layers := cfg.profiles[r].layers;
    match op {
      case OpRenameProfile(p, q) =>
        RenameKeyValues(cfg.profiles, p, q);
        RetargetedLayers(layers, p, q);
      case OpRenameLayer(p, l, k) =>
        if p == r { RelayeredLayers(layers, l, k); }
      case OpRemoveLayer(p, l) =>
        assert !LayersRefer(layers, SetLayer(l));
      case OpSetAction(p, l, c, a) =>
        if p == r {
          var layers1 := layers[l := LayerConfig(l, layers[l].controls[c := a])];
          assert layers1[l].controls[c] == a && layers1.Keys == layers.Keys;
        }
      case _ =>
    }
  }

  /** Every profile of the edited configuration was there before, or is new and empty. */
  lemma WhereProfilesComeFrom(cfg: LayeredControlConfig, op: Op, q: string)
    requires EditOf(cfg, op).Edited? && q in EditOf(cfg, op).config.profiles
    ensures (exists r :: r in cfg.profiles && NameAfter(op, r) == q) || LayerTargets(EditOf(cfg, op).config.profiles[q].layers)
  {
    if op.OpRenameProfile? { RenameKeyValues(cfg.profiles, op.p, op.q); }
    if op.OpRenameProfile? && q == op.q {
      assert op.p in cfg.profiles && NameAfter(op, op.p) == q;
    } else if q in cfg.profiles {
      assert NameAfter(op, q) == q;
    }
  }

  lemma EditKeepsLayersClosed(cfg: LayeredControlConfig, op: Op)
    requires LayersClosed(cfg) && EditOf(cfg, op).Edited?
    ensures LayersClosed(EditOf(cfg, op).config) <==>
              (op.OpSetAction? && op.a.SetLayer? ==> op.a.layer in cfg.profiles[op.p].layers)
  {
    var profiles := EditOf(cfg, op).config.profiles;
    forall r | r in cfg.profiles
      ensures NameAfter(op, r) in profiles ==>
                (LayerTargets(profiles[NameAfter(op, r)].layers) <==>
                   (op.OpSetAction? && op.p == r && op.a.SetLayer? ==> op.a.layer in cfg.profiles[r].layers))
    {
      EditKeepsLayerTargets(cfg, op, r);
    }
    forall q | q in profiles
      ensures (exists r :: r in cfg.profiles && NameAfter(op, r) == q) || LayerTargets(profiles[q].layers)
    {
      WhereProfilesComeFrom(cfg, op, q);
    }
    if op.OpSetAction? { assert NameAfter(op, op.p) == op.p && op.p in profiles; }
  }

  /** Both halves at once. */
  lemma EditKeepsClosed(cfg: LayeredControlConfig, op: Op)
    requires ProfilesClosed(cfg) && LayersClosed(cfg) && EditOf(cfg, op).Edited?
    ensures ProfilesClosed(EditOf(cfg, op).config) && LayersClosed(EditOf(cfg, op).config) <==>
              (op.OpSetAction? ==>
                 && (op.a.SetProfile? ==> op.a.profile in cfg.profiles)
                 && (op.a.SetLayer? ==> op.a.layer in cfg.profiles[op.p].layers))
  {
    EditKeepsProfilesClosed(cfg, op);
    EditKeepsLayersClosed(cfg, op);
  }

  /** An action that is set refers to no profile, or to one that is there; a refused edit sets none. */
  predicate ProfileResolves(cfg: LayeredControlConfig, op: Op) {
    EditOf(cfg, op).Edited? && op.OpSetAction? && op.a.SetProfile? ==> op.a.profile in cfg.profiles
  }

  predicate LayerResolves(cfg: LayeredControlConfig, op: Op) {
    EditOf(cfg, op).Edited? && op.OpSetAction? && op.a.SetLayer? ==>
      op.p in cfg.profiles && op.a.layer in cfg.profiles[op.p].layers
  }

  /** Every edit of the run resolves in the working configuration of its moment. */
  predicate AllResolve(cfg: LayeredControlConfig, ops: seq<Op>, resolves: (LayeredControlConfig, Op) -> bool) {
    ops == [] ||
    (var before := ops[..|ops| - 1];
     AllResolve(cfg, before, resolves) && resolves(Run(Fresh(cfg), before).working, ops[|ops| - 1]))
  }

  /** The working configuration is closed at every moment of the run. */
  predicate Throughout(cfg: LayeredControlConfig, ops: seq<Op>, closed: LayeredControlConfig -> bool) {
    closed(Run(Fresh(cfg), ops).working) && (ops == [] || Throughout(cfg, ops[..|ops| - 1], closed))
  }

  function Next(cfg: LayeredControlConfig, op: Op): LayeredControlConfig {
    if EditOf(cfg, op).Edited? then EditOf(cfg, op).config else cfg
  }

  lemma AfterIsNext(d: Draft, op: Op)
    ensures After(d, op).working == Next(d.working, op)
  {
  }

  /** What one edit keeps exactly when it resolves, a run keeps at every moment exactly when every
      edit of it resolves at its moment. */
  lemma {:induction false} RunKeeps(
      cfg: LayeredControlConfig, ops: seq<Op>, closed: LayeredControlConfig -> bool, resolves: (LayeredControlConfig, Op) -> bool)
    requires closed(cfg) && forall c, op :: closed(c) ==> (closed(Next(c, op)) <==> resolves(c, op))
    ensures Throughout(cfg, ops, closed) <==> AllResolve(cfg, ops, resolves)
    decreases |ops|
  {
    if ops != [] {
      var before, op := ops[..|ops| - 1], ops[|ops| - 1];
      RunKeeps(cfg, before, closed, resolves);
      AfterIsNext(Run(Fresh(cfg), before), op);
      assert Throughout(cfg, before, closed) ==> closed(Run(Fresh(cfg), before).working);
    }
  }

  /** Over any edits, set actions included, and whatever the layer references do: the profile
      references resolve at every moment exactly when each action's own one does when it is set. */
  lemma RunKeepsProfilesClosed(cfg: LayeredControlConfig, ops: seq<Op>)
    requires ProfilesClosed(cfg)
    ensures Throughout(cfg, ops, ProfilesClosed) <==> AllResolve(cfg, ops, ProfileResolves)
  {
    forall c, op | ProfilesClosed(c) ensures ProfilesClosed(Next(c, op)) <==> ProfileResolves(c, op) {
      if EditOf(c, op).Edited? { EditKeepsProfilesClosed(c, op); }
    }
    RunKeeps(cfg, ops, ProfilesClosed, ProfileResolves);
  }

  /** Likewise for the layer references, whatever the profile references do. */
  lemma RunKeepsLayersClosed(cfg: LayeredControlConfig, ops: seq<Op>)
    requires LayersClosed(cfg)
    ensures Throughout(cfg, ops, LayersClosed) <==> AllResolve(cfg, ops, LayerResolves)
  {
    forall c, op | LayersClosed(c) ensures LayersClosed(Next(c, op)) <==> LayerResolves(c, op) {
      if EditOf(c, op).Edited? { EditKeepsLayersClosed(c, op); }
    }
    RunKeeps(cfg, ops, LayersClosed, LayerResolves);
  }

  /** In particular after the run, each half on its own. */
  lemma RunKeepsClosed(cfg: LayeredControlConfig, ops: seq<Op>)
    ensures ProfilesClosed(cfg) && AllResolve(cfg, ops, ProfileResolves) ==> ProfilesClosed(Run(Fresh(cfg), ops).working)
    ensures LayersClosed(cfg) && AllResolve(cfg, ops, LayerResolves) ==> LayersClosed(Run(Fresh(cfg), ops).working)
  {
    if ProfilesClosed(cfg) { RunKeepsProfilesClosed(cfg, ops); }
    if LayersClosed(cfg) { RunKeepsLayersClosed(cfg, ops); }
  }

  /** One profile with one layer that maps one control. */
  function OneAction(a: Action): LayeredControlConfig {
    LayeredControlConfig(2, "a", GENERAL, map["a" := ProfileConfig("a", SingleLayer(GENERAL, a))])
  }

  function SingleLayer(l: string, a: Action): map<string, LayerConfig> { map[l := LayerConfig(l, map["A1" := a])] }

  lemma SingleLayerAction(l: string, a: Action)
    ensures SingleLayer(l, a).Keys == {l} && SingleLayer(l, a)[l].controls["A1"] == a
    ensures LayersRefer(SingleLayer(l, a), a)
  {
    assert SingleLayer(l, a)[l].controls["A1"] == a;
  }

  /** The two halves are independent: a dangling layer reference leaves profile references closed,
      and a dangling profile reference the layer references. */
  lemma HalvesIndependent()
    ensures ProfilesClosed(OneAction(SetLayer("zz"))) && !LayersClosed(OneAction(SetLayer("zz")))
    ensures LayersClosed(OneAction(SetProfile("zz"))) && !ProfilesClosed(OneAction(SetProfile("zz")))
  {
    SingleLayerAction(GENERAL, SetLayer("zz"));
    SingleLayerAction(GENERAL, SetProfile("zz"));
    assert OneAction(SetLayer("zz")).profiles["a"].layers == SingleLayer(GENERAL, SetLayer("zz"));
    assert OneAction(SetProfile("zz")).profiles["a"].layers == SingleLayer(GENERAL, SetProfile("zz"));
    assert OneAction(SetProfile("zz")).profiles.Keys == {"a"};
  }

  // ---- The general layer ----

  predicate KeepsGeneral(cfg: LayeredControlConfig) {
    forall p :: p in cfg.profiles ==> GENERAL in cfg.profiles[p].layers
  }

  /** Every profile keeps its general layer through every edit but one: renaming the general layer
      itself, after which the profile has none. */
  lemma GeneralIsKept(cfg: LayeredControlConfig, op: Op)
    requires KeepsGeneral(cfg) && EditOf(cfg, op).Edited?
    ensures KeepsGeneral(EditOf(cfg, op).config) <==> !(op.OpRenameLayer? && op.l == GENERAL)
  {
    var cfg1 := EditOf(cfg, op).config;
    match op {
      case OpRenameProfile(p, q) =>
        RenameKeyValues(cfg.profiles, p, q);
        forall r | r in cfg1.profiles ensures GENERAL in cfg1.profiles[r].layers {
          MapLayersKeys(cfg.profiles[if r == q then p else r].layers, ProfileFix(p, q));
        }
      case OpRenameLayer(p, l, k) =>
        RenameKeyValues(cfg.profiles[p].layers, l, k);
        MapLayersKeys(RenameKey(cfg.profiles[p].layers, l, k), LayerFix(l, k));
        assert p in cfg1.profiles;
      case _ =>
    }
  }

  lemma ShortNames()
    ensures IsProfileId("a") && IsProfileId("b") && IsLayerId(GENERAL) && IsLayerId("layer_1") && "a" != "b"
  {
    assert IsPlainProfileId("a") && IsPlainProfileId("b");
  }

  /** Such a rename is accepted. */
  lemma GeneralIsLost()
    ensures KeepsGeneral(OneAction(NoOp))
    ensures var edit := RenameLayer(OneAction(NoOp), "a", GENERAL, "layer_1");
            edit.Edited? && !KeepsGeneral(edit.config)
  {
    ShortNames();
    GeneralIsKept(OneAction(NoOp), OpRenameLayer("a", GENERAL, "layer_1"));
  }

  // ---- Renaming there and back ----

  lemma MapLayersTwice(layers: map<string, LayerConfig>, old_: string, new_: string)
    requires old_ != new_
    ensures MapLayers(MapLayers(layers, ProfileFix(old_, new_)), ProfileFix(new_, old_)) == layers
       <==> !LayersRefer(layers, SetProfile(new_))
  {
    var f, g := ProfileFix(old_, new_), ProfileFix(new_, old_);
    var twice := MapLayers(MapLayers(layers, f), g);
    if LayersRefer(layers, SetProfile(new_)) {
      var l, c :| l in layers && c in layers[l].controls && layers[l].controls[c] == SetProfile(new_);
      assert twice[l].controls[c] == SetProfile(old_);
    } else {
      forall l | l in layers ensures twice[l] == layers[l] {
        assert twice[l].controls == layers[l].controls;
      }
    }
  }

  /** Renaming a profile and renaming it back restores the configuration exactly when nothing
      referred to the new name beforehand: no top-level action, and not the default. */
  lemma RenameProfileBack(cfg: LayeredControlConfig, p: string, q: string)
    requires RenameProfile(cfg, p, q).Edited?
    ensures var there := RenameProfile(cfg, p, q).config;
            RenameProfile(there, q, p).Edited? &&
            (RenameProfile(there, q, p).config == cfg <==>
               !Refers(cfg.profiles, SetProfile(q)) && cfg.defaultProfile != q)
  {
    var there := RenameProfile(cfg, p, q).config;
    RenameKeyValues(cfg.profiles, p, q);
    var back := RenameProfile(there, q, p).config;
    RenameKeyValues(there.profiles, q, p);
    assert back.profiles.Keys == cfg.profiles.Keys;
    forall r | r in cfg.profiles
      ensures back.profiles[r] == cfg.profiles[r] <==> !LayersRefer(cfg.profiles[r].layers, SetProfile(q))
    {
      MapLayersTwice(cfg.profiles[r].layers, p, q);
    }
  }

  lemma RenamedThereAndBack(layers: map<string, LayerConfig>, l: string, k: string)
    requires l in layers && k !in layers
    ensures var there := MapLayers(RenameKey(layers, l, k), LayerFix(l, k));
            && k in there && MapLayers(RenameKey(there, k, l), LayerFix(k, l)) == MapLayers(MapLayers(layers, LayerFix(l, k)), LayerFix(k, l))
  {
    var there := MapLayers(RenameKey(layers, l, k), LayerFix(l, k));
    RenameKeyValues(layers, l, k);
    RenameKeyValues(there, k, l);
    assert RenameKey(there, k, l) == MapLayers(layers, LayerFix(l, k));
  }

  lemma FixedThereAndBack(layers: map<string, LayerConfig>, l: string, k: string)
    requires l != k
    ensures MapLayers(MapLayers(layers, LayerFix(l, k)), LayerFix(k, l)) == layers <==> !LayersRefer(layers, SetLayer(k))
  {
    var back := MapLayers(MapLayers(layers, LayerFix(l, k)), LayerFix(k, l));
    if LayersRefer(layers, SetLayer(k)) {
      var m, c :| m in layers && c in layers[m].controls && layers[m].controls[c] == SetLayer(k);
      assert back[m].controls[c] == SetLayer(l);
    } else {
      forall m | m in layers ensures back[m] == layers[m] {
        assert back[m].controls == layers[m].controls;
      }
    }
  }

  lemma RenamedLayersBack(layers: map<string, LayerConfig>, l: string, k: string)
    requires l in layers && k !in layers
    ensures var there := MapLayers(RenameKey(layers, l, k), LayerFix(l, k));
            k in there && (MapLayers(RenameKey(there, k, l), LayerFix(k, l)) == layers <==> !LayersRefer(layers, SetLayer(k)))
  {
    RenamedThereAndBack(layers, l, k);
    FixedThereAndBack(layers, l, k);
  }

  /** Likewise for a layer, where the initial layer must not already carry the new name and the
      profile's redundant identifier must agree with its key. */
  lemma RenameLayerBack(cfg: LayeredControlConfig, p: string, l: string, k: string)
    requires RenameLayer(cfg, p, l, k).Edited?
    ensures var there := RenameLayer(cfg, p, l, k).config;
            RenameLayer(there, p, k, l).Edited? &&
            (RenameLayer(there, p, k, l).config == cfg <==>
               && !LayersRefer(cfg.profiles[p].layers, SetLayer(k))
               && cfg.initialLayer != k
               && cfg.profiles[p].profileId == p)
  {
    var layers := cfg.profiles[p].layers;
    RenameKeyValues(layers, l, k);
    RenamedLayersBack(layers, l, k);
    var there := RenameLayer(cfg, p, l, k).config;
    PutLayersTwice(cfg, p, there.profiles[p].layers, LayerRenamed(there, p, k, l).profiles[p].layers,
                   there.initialLayer, LayerRenamed(there, p, k, l).initialLayer);
  }

  /** Putting a profile's layers twice restores the configuration exactly when the last ones are its own. */
  lemma PutLayersTwice(cfg: LayeredControlConfig, p: string, layers: map<string, LayerConfig>,
                       layers1: map<string, LayerConfig>, initial: string, initial1: string)
    requires p in cfg.profiles
    ensures PutLayers(PutLayers(cfg, p, layers).(initialLayer := initial), p, layers1).(initialLayer := initial1) == cfg
       <==> ProfileConfig(p, layers1) == cfg.profiles[p] && initial1 == cfg.initialLayer
  {
    var back := PutLayers(PutLayers(cfg, p, layers).(initialLayer := initial), p, layers1);
    assert back.profiles[p] == ProfileConfig(p, layers1);
    assert back.profiles == cfg.profiles[p := ProfileConfig(p, layers1)];
    assert cfg.profiles[p := cfg.profiles[p]] == cfg.profiles;
  }

  /** Renaming the profile and back is accepted and does not restore. */
  predicate ProfileStays(cfg: LayeredControlConfig, p: string, q: string) {
    var there := RenameProfile(cfg, p, q);
    there.Edited? && RenameProfile(there.config, q, p).Edited? && RenameProfile(there.config, q, p).config != cfg
  }

  /** Renaming the general layer to the first and back is accepted and does not restore. */
  predicate LayerStays(cfg: LayeredControlConfig, p: string) {
    var there := RenameLayer(cfg, p, GENERAL, "layer_1");
    there.Edited? && RenameLayer(there.config, p, "layer_1", GENERAL).Edited?
    && RenameLayer(there.config, p, "layer_1", GENERAL).config != cfg
  }

  /** One configuration for each way a rename there and back does not restore: a dangling reference
      to the new profile name, and that name as the missing default; a dangling reference to the new
      layer name, that name as initial layer, and an identifier left by an earlier profile rename. */
  lemma RenamesThatStay()
    ensures ProfileStays(OneAction(SetProfile("b")), "a", "b")
    ensures ProfileStays(OneAction(NoOp).(defaultProfile := "b"), "a", "b")
    ensures LayerStays(OneAction(SetLayer("layer_1")), "a")
    ensures LayerStays(OneAction(NoOp).(initialLayer := "layer_1"), "a")
    ensures var renamed := RenameProfile(OneAction(NoOp), "a", "b");
            renamed.Edited? && LayerStays(renamed.config, "b")
  {
    ReferenceToProfileStays();
    DefaultStays();
    ReferenceToLayerStays();
    InitialLayerStays();
    IdentifierStays();
  }

  lemma ReferenceToProfileStays()
    ensures ProfileStays(OneAction(SetProfile("b")), "a", "b")
  {
    var cfg := OneAction(SetProfile("b"));
    ShortNames();
    SingleLayerAction(GENERAL, SetProfile("b"));
    assert LayersRefer(cfg.profiles["a"].layers, SetProfile("b"));
    RenameProfileBack(cfg, "a", "b");
  }

  lemma DefaultStays()
    ensures ProfileStays(OneAction(NoOp).(defaultProfile := "b"), "a", "b")
  {
    ShortNames();
    RenameProfileBack(OneAction(NoOp).(defaultProfile := "b"), "a", "b");
  }

  lemma ReferenceToLayerStays()
    ensures LayerStays(OneAction(SetLayer("layer_1")), "a")
  {
    ShortNames();
    SingleLayerAction(GENERAL, SetLayer("layer_1"));
    RenameLayerBack(OneAction(SetLayer("layer_1")), "a", GENERAL, "layer_1");
  }

  lemma InitialLayerStays()
    ensures LayerStays(OneAction(NoOp).(initialLayer := "layer_1"), "a")
  {
    ShortNames();
    RenameLayerBack(OneAction(NoOp).(initialLayer := "layer_1"), "a", GENERAL, "layer_1");
  }

  lemma IdentifierStays()
    ensures var renamed := RenameProfile(OneAction(NoOp), "a", "b");
            renamed.Edited? && LayerStays(renamed.config, "b")
  {
    ShortNames();
    var cfg := RenameProfile(OneAction(NoOp), "a", "b").config;
    RenameKeyValues(OneAction(NoOp).profiles, "a", "b");
    MapLayersKeys(SingleLayer(GENERAL, NoOp), ProfileFix("a", "b"));
    RenameLayerBack(cfg, "b", GENERAL, "layer_1");
  }
}
