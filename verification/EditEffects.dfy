/** What each draft edit (`configurator/draft.py`) does, said of the mappings a reader can look up:
    when it takes effect, what it changes, and that it leaves everything else alone. */
module EditEffects {
  import opened Wrappers
  import opened ControlModel
  import opened DraftModel

  // ---- Looking a configuration up ----

  /** What a control is mapped to. */
  function At(cfg: LayeredControlConfig, p: string, l: string, c: string): Option<Action> {
    if p in cfg.profiles && l in cfg.profiles[p].layers && c in cfg.profiles[p].layers[l].controls
    then Some(cfg.profiles[p].layers[l].controls[c]) else None
  }

  function LayersIn(cfg: LayeredControlConfig, p: string): set<string> {
    if p in cfg.profiles then cfg.profiles[p].layers.Keys else {}
  }

  predicate HasLayer(cfg: LayeredControlConfig, p: string, l: string) { l in LayersIn(cfg, p) }

  predicate SameSettings(cfg: LayeredControlConfig, cfg1: LayeredControlConfig) {
    cfg1.schemaVersion == cfg.schemaVersion && cfg1.defaultProfile == cfg.defaultProfile && cfg1.initialLayer == cfg.initialLayer
  }

  /** The same profiles, and the same layers in each. */
  ghost predicate SameShape(cfg: LayeredControlConfig, cfg1: LayeredControlConfig) {
    cfg1.profiles.Keys == cfg.profiles.Keys && forall q :: LayersIn(cfg1, q) == LayersIn(cfg, q)
  }

  /** Profiles other than `p` are what they were. */
  predicate OthersSame(cfg: LayeredControlConfig, cfg1: LayeredControlConfig, p: string) {
    forall q :: q in cfg.profiles && q != p ==> q in cfg1.profiles && cfg1.profiles[q] == cfg.profiles[q]
  }

  /** A mapping after a reference is renamed. */
  function Renamed(x: Option<Action>, before: Action, after: Action): Option<Action> {
    if x == Some(before) then Some(after) else x
  }

  // ---- When an edit takes effect ----

  /** What an edit asks of the configuration. */
  ghost predicate Allowed(cfg: LayeredControlConfig, op: Op) {
    match op
    case OpAddProfile(p) => IsProfileId(p) && p !in cfg.profiles
    case OpRenameProfile(p, q) => IsProfileId(p) && IsProfileId(q) && p in cfg.profiles && q !in cfg.profiles
    case OpRemoveProfile(p) =>
      && IsProfileId(p) && p in cfg.profiles && |cfg.profiles| > 1 && p != cfg.defaultProfile
      && forall q, l, c :: At(cfg, q, l, c) != Some(SetProfile(p))
    case OpSetDefaultProfile(p) => IsProfileId(p) && p in cfg.profiles
    case OpAddLayer(p, l) => IsProfileId(p) && IsLayerId(l) && p in cfg.profiles && !HasLayer(cfg, p, l)
    case OpRenameLayer(p, l, k) =>
      IsProfileId(p) && IsLayerId(l) && IsLayerId(k) && HasLayer(cfg, p, l) && !HasLayer(cfg, p, k)
    case OpRemoveLayer(p, l) =>
      && IsProfileId(p) && IsLayerId(l) && HasLayer(cfg, p, l) && l != GENERAL && |LayersIn(cfg, p)| > 1
      && forall q, k, c :: At(cfg, q, k, c) != Some(SetLayer(l))
    case OpSetInitialLayer(l) => IsLayerId(l)
    case OpSetAction(p, l, c, _) => IsProfileId(p) && IsLayerId(l) && IsControl(c) && HasLayer(cfg, p, l)
    case OpClearAction(p, l, c) => IsProfileId(p) && IsLayerId(l) && IsControl(c) && HasLayer(cfg, p, l)
  }

  /** The edits that ask for what already is. */
  predicate Idle(cfg: LayeredControlConfig, op: Op) {
    match op
    case OpSetDefaultProfile(p) => p == cfg.defaultProfile
    case OpSetInitialLayer(l) => l == cfg.initialLayer
    case OpClearAction(p, l, c) => At(cfg, p, l, c) == None
    case _ => false
  }

  lemma NoReference(cfg: LayeredControlConfig, a: Action)
    ensures Refers(cfg.profiles, a) <==> exists q, l, c :: At(cfg, q, l, c) == Some(a)
  {
    if Refers(cfg.profiles, a) {
      var q :| q in cfg.profiles && LayersRefer(cfg.profiles[q].layers, a);
      var l, c :| l in cfg.profiles[q].layers && c in cfg.profiles[q].layers[l].controls
                  && cfg.profiles[q].layers[l].controls[c] == a;
      assert At(cfg, q, l, c) == Some(a);
    }
    if exists q, l, c :: At(cfg, q, l, c) == Some(a) {
      var q, l, c :| At(cfg, q, l, c) == Some(a);
      assert LayersRefer(cfg.profiles[q].layers, a);
    }
  }

  /** Each edit is refused, has nothing to do, or takes effect exactly when it should. */
  lemma EditAccepted(cfg: LayeredControlConfig, op: Op)
    ensures EditOf(cfg, op).Rejected? <==> !Allowed(cfg, op)
    ensures EditOf(cfg, op).Unchanged? <==> Allowed(cfg, op) && Idle(cfg, op)
    ensures EditOf(cfg, op).Edited? <==> Allowed(cfg, op) && !Idle(cfg, op)
  {
    match op {
      case OpRemoveProfile(p) => NoReference(cfg, SetProfile(p));
      case OpRemoveLayer(p, l) => NoReference(cfg, SetLayer(l));
      case _ =>
    }
  }

  // ---- What it does ----

  /** The layers of `p` are kept but for `l`, and the profile carries its key as its identifier. */
  predicate OtherLayersSame(cfg: LayeredControlConfig, cfg1: LayeredControlConfig, p: string, l: string) {
    && p in cfg.profiles && p in cfg1.profiles && cfg1.profiles[p].profileId == p
    && forall k :: k in cfg.profiles[p].layers && k != l ==>
         k in cfg1.profiles[p].layers && cfg1.profiles[p].layers[k] == cfg.profiles[p].layers[k]
  }

  /** One control is mapped so now, and nothing else is different. */
  ghost predicate MapsOne(cfg: LayeredControlConfig, cfg1: LayeredControlConfig, p: string, l: string, c: string, x: Option<Action>) {
    && SameSettings(cfg, cfg1) && SameShape(cfg, cfg1) && OthersSame(cfg, cfg1, p) && OtherLayersSame(cfg, cfg1, p, l)
    && At(cfg1, p, l, c) == x
    && forall q, k, d :: q != p || k != l || d != c ==> At(cfg1, q, k, d) == At(cfg, q, k, d)
  }

  /** What an edit that takes effect leaves. */
  ghost predicate Effect(cfg: LayeredControlConfig, op: Op, cfg1: LayeredControlConfig) {
    match op
    case OpAddProfile(p) =>
      && SameSettings(cfg, cfg1) && cfg1.profiles.Keys == cfg.profiles.Keys + {p} && OthersSame(cfg, cfg1, p)
      && LayersIn(cfg1, p) == {GENERAL} && cfg1.profiles[p].profileId == p && forall c :: At(cfg1, p, GENERAL, c) == None
    case OpRenameProfile(p, q) =>
      && cfg1.schemaVersion == cfg.schemaVersion && cfg1.initialLayer == cfg.initialLayer
      && cfg1.defaultProfile == (if cfg.defaultProfile == p then q else cfg.defaultProfile)
      && cfg1.profiles.Keys == cfg.profiles.Keys - {p} + {q}
      && (forall r :: r != p ==> LayersIn(cfg1, r) == LayersIn(cfg, if r == q then p else r))
      && forall r, l, c :: r != p ==>
           At(cfg1, r, l, c) == Renamed(At(cfg, if r == q then p else r, l, c), SetProfile(p), SetProfile(q))
    case OpRemoveProfile(p) =>
      SameSettings(cfg, cfg1) && cfg1.profiles.Keys == cfg.profiles.Keys - {p} && OthersSame(cfg, cfg1, p)
    case OpSetDefaultProfile(p) =>
      && cfg1.schemaVersion == cfg.schemaVersion && cfg1.defaultProfile == p && cfg1.initialLayer == cfg.initialLayer
      && cfg1.profiles == cfg.profiles
    case OpAddLayer(p, l) =>
      && SameSettings(cfg, cfg1) && cfg1.profiles.Keys == cfg.profiles.Keys && OthersSame(cfg, cfg1, p)
      && LayersIn(cfg1, p) == LayersIn(cfg, p) + {l} && OtherLayersSame(cfg, cfg1, p, l)
      && forall k, c :: At(cfg1, p, k, c) == if k == l then None else At(cfg, p, k, c)
    case OpRenameLayer(p, l, k) =>
      && cfg1.schemaVersion == cfg.schemaVersion && cfg1.defaultProfile == cfg.defaultProfile
      && cfg1.initialLayer == (if cfg.initialLayer == l then k else cfg.initialLayer)
      && cfg1.profiles.Keys == cfg.profiles.Keys && OthersSame(cfg, cfg1, p)
      && LayersIn(cfg1, p) == LayersIn(cfg, p) - {l} + {k}
      && forall m, c :: m != l ==>
           At(cfg1, p, m, c) == Renamed(At(cfg, p, if m == k then l else m, c), SetLayer(l), SetLayer(k))
    case OpRemoveLayer(p, l) =>
      && SameSettings(cfg, cfg1) && cfg1.profiles.Keys == cfg.profiles.Keys && OthersSame(cfg, cfg1, p)
      && LayersIn(cfg1, p) == LayersIn(cfg, p) - {l} && OtherLayersSame(cfg, cfg1, p, l)
      && forall k, c :: k != l ==> At(cfg1, p, k, c) == At(cfg, p, k, c)
    case OpSetInitialLayer(l) =>
      && cfg1.schemaVersion == cfg.schemaVersion && cfg1.defaultProfile == cfg.defaultProfile && cfg1.initialLayer == l
      && cfg1.profiles == cfg.profiles
    case OpSetAction(p, l, c, a) => MapsOne(cfg, cfg1, p, l, c, Some(a))
    case OpClearAction(p, l, c) => MapsOne(cfg, cfg1, p, l, c, None)
  }

  lemma AddProfileEffect(cfg: LayeredControlConfig, p: string)
    requires AddProfile(cfg, p).Edited?
    ensures Effect(cfg, OpAddProfile(p), AddProfile(cfg, p).config)
  {
  }

  lemma RenameProfileEffect(cfg: LayeredControlConfig, p: string, q: string)
    requires RenameProfile(cfg, p, q).Edited?
    ensures Effect(cfg, OpRenameProfile(p, q), RenameProfile(cfg, p, q).config)
  {
    var cfg1 := RenameProfile(cfg, p, q).config;
    RenameKeyValues(cfg.profiles, p, q);
    forall r | r != p ensures LayersIn(cfg1, r) == LayersIn(cfg, if r == q then p else r) {
      if r in cfg1.profiles { MapLayersKeys(cfg.profiles[if r == q then p else r].layers, ProfileFix(p, q)); }
    }
  }

  lemma AddLayerEffect(cfg: LayeredControlConfig, p: string, l: string)
    requires AddLayer(cfg, p, l).Edited?
    ensures Effect(cfg, OpAddLayer(p, l), AddLayer(cfg, p, l).config)
  {
  }

  function ControlIn(layers: map<string, LayerConfig>, l: string, c: string): Option<Action> {
    if l in layers && c in layers[l].controls then Some(layers[l].controls[c]) else None
  }

  lemma RenamedControls(layers: map<string, LayerConfig>, l: string, k: string)
    requires l in layers && k !in layers
    ensures var layers1 := MapLayers(RenameKey(layers, l, k), LayerFix(l, k));
            && layers1.Keys == layers.Keys - {l} + {k}
            && forall m, c :: m != l ==>
                 ControlIn(layers1, m, c) == Renamed(ControlIn(layers, if m == k then l else m, c), SetLayer(l), SetLayer(k))
  {
    RenameKeyValues(layers, l, k);
    MapLayersKeys(RenameKey(layers, l, k), LayerFix(l, k));
  }

  lemma RenameLayerEffect(cfg: LayeredControlConfig, p: string, l: string, k: string)
    requires RenameLayer(cfg, p, l, k).Edited?
    ensures Effect(cfg, OpRenameLayer(p, l, k), RenameLayer(cfg, p, l, k).config)
  {
    var cfg1 := RenameLayer(cfg, p, l, k).config;
    var layers1 := MapLayers(RenameKey(cfg.profiles[p].layers, l, k), LayerFix(l, k));
    RenamedControls(cfg.profiles[p].layers, l, k);
    assert cfg1.profiles[p].layers == layers1;
    forall m, c ensures At(cfg1, p, m, c) == ControlIn(layers1, m, c) && At(cfg, p, m, c) == ControlIn(cfg.profiles[p].layers, m, c) {
    }
  }

  lemma RemoveLayerEffect(cfg: LayeredControlConfig, p: string, l: string)
    requires RemoveLayer(cfg, p, l).Edited?
    ensures Effect(cfg, OpRemoveLayer(p, l), RemoveLayer(cfg, p, l).config)
  {
  }

  lemma SetActionEffect(cfg: LayeredControlConfig, p: string, l: string, c: string, a: Action)
    requires SetAction(cfg, p, l, c, a).Edited?
    ensures Effect(cfg, OpSetAction(p, l, c, a), SetAction(cfg, p, l, c, a).config)
  {
  }

  lemma ClearActionEffect(cfg: LayeredControlConfig, p: string, l: string, c: string)
    requires ClearAction(cfg, p, l, c).Edited?
    ensures Effect(cfg, OpClearAction(p, l, c), ClearAction(cfg, p, l, c).config)
  {
  }

  /** Every edit that takes effect does just that. */
  lemma EditHasEffect(cfg: LayeredControlConfig, op: Op)
    requires EditOf(cfg, op).Edited?
    ensures Effect(cfg, op, EditOf(cfg, op).config)
  {
    match op {
      case OpAddProfile(p) => AddProfileEffect(cfg, p);
      case OpRenameProfile(p, q) => RenameProfileEffect(cfg, p, q);
      case OpAddLayer(p, l) => AddLayerEffect(cfg, p, l);
      case OpRenameLayer(p, l, k) => RenameLayerEffect(cfg, p, l, k);
      case OpRemoveLayer(p, l) => RemoveLayerEffect(cfg, p, l);
      case OpSetAction(p, l, c, a) => SetActionEffect(cfg, p, l, c, a);
      case OpClearAction(p, l, c) => ClearActionEffect(cfg, p, l, c);
      case _ =>
    }
  }

  /** On a draft: the base stays; an edit that takes effect makes it dirty, counts once, and is recorded
      when it renames; any other leaves the draft as it was. */
  lemma DraftHasEffect(d: Draft, op: Op)
    ensures var d1 := After(d, op);
            if Allowed(d.working, op) && !Idle(d.working, op) then
              && d1.base == d.base && Effect(d.working, op, d1.working) && d1.dirty && d1.mutations == d.mutations + 1
              && d1.renames == d.renames + match op
                                           case OpRenameProfile(p, q) => [Rename(true, "profiles." + p, p, q)]
                                           case OpRenameLayer(p, l, k) => [Rename(false, "profiles." + p + ".layers." + l, l, k)]
                                           case _ => []
            else d1 == d
  {
    EditAccepted(d.working, op);
    if EditOf(d.working, op).Edited? { EditHasEffect(d.working, op); }
  }
}
