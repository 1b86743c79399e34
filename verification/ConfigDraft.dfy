/** The mutable draft (`configurator/draft.py`). Configurations are frozen records, but the control
    dictionaries inside them are objects: fresh copies share them with earlier configurations, and
    renames change them in place. The base's dictionaries stay apart from the working ones. */
module ConfigDraft {
  import opened ControlModel
  import opened DraftModel

  /** A mutable dictionary of controls. */
  class ControlDict {
    var items: map<string, Action>

    constructor (items: map<string, Action>)
      ensures this.items == items
    {
      this.items := items;
    }
  }

  datatype LayerRef = LayerRef(layerId: string, controls: ControlDict)

  type LayerRefs = map<string, LayerRef>

  datatype ProfileRef = ProfileRef(profileId: string, layers: LayerRefs)

  type ProfileRefs = map<string, ProfileRef>

  datatype ConfigRef = ConfigRef(
    schemaVersion: int, defaultProfile: string, initialLayer: string, profiles: ProfileRefs)

  // ---- Objects and values ----

  ghost function LayerDicts(layers: LayerRefs): set<ControlDict> {
    set l | l in layers :: layers[l].controls
  }

  ghost function Dicts(profiles: ProfileRefs): set<ControlDict> {
    set p, l | p in profiles && l in profiles[p].layers :: profiles[p].layers[l].controls
  }

  ghost predicate LayersApart(layers: LayerRefs) {
    forall l, k :: l in layers && k in layers && l != k ==> layers[l].controls != layers[k].controls
  }

  /** No dictionary is used twice. */
  ghost predicate Apart(profiles: ProfileRefs) {
    && (forall p :: p in profiles ==> LayersApart(profiles[p].layers))
    && (forall p, q, l, k ::
          p in profiles && q in profiles && p != q && l in profiles[p].layers && k in profiles[q].layers ==>
            profiles[p].layers[l].controls != profiles[q].layers[k].controls)
  }

  ghost function LayersView(layers: LayerRefs): map<string, LayerConfig>
    reads LayerDicts(layers)
  {
    map l | l in layers :: LayerConfig(layers[l].layerId, layers[l].controls.items)
  }

  ghost function ProfilesView(profiles: ProfileRefs): map<string, ProfileConfig>
    reads Dicts(profiles)
  {
    map p | p in profiles :: ProfileConfig(profiles[p].profileId, LayersView(profiles[p].layers))
  }

  ghost function View(cfg: ConfigRef): LayeredControlConfig
    reads Dicts(cfg.profiles)
  {
    LayeredControlConfig(cfg.schemaVersion, cfg.defaultProfile, cfg.initialLayer, ProfilesView(cfg.profiles))
  }

  // ---- Deep copy ----

  method CopyLayers(layers: LayerRefs) returns (copy: LayerRefs)
    ensures copy.Keys == layers.Keys && LayersApart(copy)
    ensures fresh(LayerDicts(copy))
    ensures LayersView(copy) == LayersView(layers)
  {
    copy := map[];
    var todo := layers.Keys;
    while todo != {}
      invariant todo <= layers.Keys && copy.Keys == layers.Keys - todo
      invariant LayersApart(copy) && fresh(LayerDicts(copy))
      invariant forall l :: l in copy ==>
                  copy[l].layerId == layers[l].layerId && copy[l].controls.items == layers[l].controls.items
      decreases todo
    {
      var l :| l in todo;
      var controls := new ControlDict(layers[l].controls.items);
      assert forall k :: k in copy ==> copy[k].controls in LayerDicts(copy);
      copy := copy[l := LayerRef(layers[l].layerId, controls)];
      todo := todo - {l};
    }
  }

  lemma ApartExtend(profiles: ProfileRefs, p: string, prof: ProfileRef)
    requires p !in profiles && Apart(profiles) && LayersApart(prof.layers)
    requires LayerDicts(prof.layers) !! Dicts(profiles)
    ensures Apart(profiles[p := prof])
    ensures Dicts(profiles[p := prof]) <= Dicts(profiles) + LayerDicts(prof.layers)
  {
    var profiles1 := profiles[p := prof];
    assert forall l :: l in prof.layers ==> prof.layers[l].controls in LayerDicts(prof.layers);
    assert forall q, l :: q in profiles && l in profiles[q].layers ==> profiles[q].layers[l].controls in Dicts(profiles);
  }

  /** The profiles copied so far are those of `profiles`, in dictionaries of their own. */
  ghost predicate CopyOf(copied: ProfileRefs, profiles: ProfileRefs)
    reads Dicts(copied), Dicts(profiles)
  {
    && Apart(copied) && copied.Keys <= profiles.Keys
    && forall p :: p in copied ==>
         copied[p].profileId == profiles[p].profileId && LayersView(copied[p].layers) == LayersView(profiles[p].layers)
  }

  lemma CopyOfExtend(copied: ProfileRefs, profiles: ProfileRefs, p: string, layers: LayerRefs)
    requires CopyOf(copied, profiles) && p in profiles && p !in copied
    requires LayersApart(layers) && LayerDicts(layers) !! Dicts(copied)
    requires LayersView(layers) == LayersView(profiles[p].layers)
    ensures var copied1 := copied[p := ProfileRef(profiles[p].profileId, layers)];
            CopyOf(copied1, profiles) && Dicts(copied1) <= Dicts(copied) + LayerDicts(layers)
  {
    ApartExtend(copied, p, ProfileRef(profiles[p].profileId, layers));
  }

  lemma CopyOfAll(copied: ProfileRefs, profiles: ProfileRefs)
    requires CopyOf(copied, profiles) && copied.Keys == profiles.Keys
    ensures ProfilesView(copied) == ProfilesView(profiles)
  {
  }

  method CopyProfile(profiles: ProfileRefs, p: string, copied: ProfileRefs) returns (copied1: ProfileRefs)
    requires CopyOf(copied, profiles) && p in profiles && p !in copied
    ensures CopyOf(copied1, profiles) && copied1.Keys == copied.Keys + {p}
    ensures fresh(Dicts(copied1) - Dicts(copied))
  {
    var layers := CopyLayers(profiles[p].layers);
    CopyOfExtend(copied, profiles, p, layers);
    copied1 := copied[p := ProfileRef(profiles[p].profileId, layers)];
  }

  /** `deepcopy`, of a configuration whose dictionaries are apart. */
  method DeepCopy(cfg: ConfigRef) returns (copy: ConfigRef)
    ensures fresh(Dicts(copy.profiles)) && Apart(copy.profiles)
    ensures View(copy) == View(cfg)
  {
    var profiles: ProfileRefs := map[];
    var todo := cfg.profiles.Keys;
    while todo != {}
      invariant todo <= cfg.profiles.Keys && profiles.Keys == cfg.profiles.Keys - todo
      invariant CopyOf(profiles, cfg.profiles) && fresh(Dicts(profiles))
      decreases todo
    {
      var p :| p in todo;
      profiles := CopyProfile(cfg.profiles, p, profiles);
      todo := todo - {p};
    }
    copy := cfg.(profiles := profiles);
    CopyOfAll(profiles, cfg.profiles);
  }

  // ---- In-place reference fixes ----

  /** The innermost loop of a fix: one dictionary. */
  method FixControls(controls: ControlDict, f: Action -> Action)
    modifies controls
    ensures controls.items == MapControls(old(controls.items), f)
  {
    var todo := controls.items.Keys;
    while todo != {}
      invariant todo <= controls.items.Keys == old(controls.items).Keys
      invariant forall c :: c in controls.items ==>
                  controls.items[c] == if c in todo then old(controls.items)[c] else f(old(controls.items)[c])
      decreases todo
    {
      var c :| c in todo;
      controls.items := controls.items[c := f(controls.items[c])];
      todo := todo - {c};
    }
  }

  method FixLayers(layers: LayerRefs, f: Action -> Action)
    requires LayersApart(layers)
    modifies LayerDicts(layers)
    ensures LayersView(layers) == MapLayers(old(LayersView(layers)), f)
  {
    var todo := layers.Keys;
    while todo != {}
      invariant todo <= layers.Keys
      invariant forall l :: l in layers ==>
                  layers[l].controls.items
                    == if l in todo then old(layers[l].controls.items) else MapControls(old(layers[l].controls.items), f)
      decreases todo
    {
      var l :| l in todo;
      assert layers[l].controls in LayerDicts(layers);
      FixControls(layers[l].controls, f);
      todo := todo - {l};
    }
  }

  /** One profile of many: the dictionaries of the others are not touched. */
  method FixProfile(profiles: ProfileRefs, p: string, f: Action -> Action)
    requires Apart(profiles) && p in profiles
    modifies LayerDicts(profiles[p].layers)
    ensures LayersView(profiles[p].layers) == MapLayers(old(LayersView(profiles[p].layers)), f)
    ensures forall q :: q in profiles && q != p ==> LayersView(profiles[q].layers) == old(LayersView(profiles[q].layers))
  {
    assert forall q :: q in profiles && q != p ==> LayerDicts(profiles[q].layers) !! LayerDicts(profiles[p].layers);
    FixLayers(profiles[p].layers, f);
  }

  /** `_fix_setprofile_refs`, and `_fix_setlayer_refs` on the layers of one profile. */
  method FixProfiles(profiles: ProfileRefs, f: Action -> Action)
    requires Apart(profiles)
    modifies Dicts(profiles)
    ensures ProfilesView(profiles) == MapProfiles(old(ProfilesView(profiles)), f)
  {
    var todo := profiles.Keys;
    ghost var view := ProfilesView(profiles);
    while todo != {}
      invariant todo <= profiles.Keys
      invariant forall p :: p in profiles ==>
                  LayersView(profiles[p].layers) == if p in todo then view[p].layers else MapLayers(view[p].layers, f)
      decreases todo
    {
      var p :| p in todo;
      assert LayerDicts(profiles[p].layers) <= Dicts(profiles);
      FixProfile(profiles, p, f);
      todo := todo - {p};
    }
  }

  // ---- The draft ----

  /** What an edit did: refused and nothing changed, nothing to do and nothing changed, or the new
      configuration installed, the draft dirty, and the mutation counted once. The base never changes. */
  predicate Outcome(before: Draft, after: Draft, success: bool, edit: Edit, renames: seq<Rename>) {
    match edit
    case Rejected => !success && after == before
    case Unchanged => success && after == before
    case Edited(cfg) =>
      success && after == Counted(before, cfg, renames)
  }

  /** Every method's outcome is the step of the edit model. */
  lemma OutcomeIsStep(before: Draft, after: Draft, success: bool, op: Op)
    requires Outcome(before, after, success, EditOf(before.working, op), RecordsOf(op))
    ensures after == After(before, op)
    ensures !success ==> after == before
  {
  }

  class ConfigDraft {
    const base: ConfigRef
    var working: ConfigRef
    var dirty: bool
    var mutationCount: nat
    var records: seq<Rename>

    /** The base's dictionaries are not the working ones, and no working one is used twice. */
    ghost predicate Valid()
      reads this
    {
      Dicts(base.profiles) !! Dicts(working.profiles) && Apart(working.profiles)
    }

    ghost function Abstract(): Draft
      reads this, Dicts(base.profiles), Dicts(working.profiles)
    {
      Draft(View(base), View(working), dirty, mutationCount, records)
    }

    /** A draft of a loaded schema-2 configuration. */
    constructor (config: ConfigRef)
      requires config.schemaVersion >= 2 && Apart(config.profiles)
      ensures base == config && Valid() && fresh(Dicts(working.profiles))
      ensures Abstract() == Fresh(View(config))
    {
      base := config;
      working := config;
      dirty := false;
      mutationCount := 0;
      records := [];
      new;
      var copy := DeepCopy(config);
      label copied:
      working := copy;
      assert forall d :: d in Dicts(config.profiles) ==> unchanged@copied(d);
      assert ProfilesView(config.profiles) == old@copied(ProfilesView(config.profiles));
    }

    /** `_mark_dirty`, once the new configuration is in place. */
    method Install(cfg: ConfigRef, renames: seq<Rename>)
      requires Valid() && Apart(cfg.profiles) && Dicts(base.profiles) !! Dicts(cfg.profiles)
      modifies this
      ensures Valid() && working == cfg
      ensures View(cfg) == old(View(cfg)) && Abstract() == Counted(old(Abstract()), View(cfg), renames)
    {
      working := cfg;
      records := records + renames;
      dirty := true;
      mutationCount := mutationCount + 1;
      Untouched(base);
      Untouched(cfg);
    }

    /** Fix references in dictionaries of the working configuration: the base keeps its own. */
    method FixOwn(profiles: ProfileRefs, f: Action -> Action)
      requires Valid() && Apart(profiles) && Dicts(profiles) <= Dicts(working.profiles)
      modifies Dicts(profiles)
      ensures View(base) == old(View(base))
      ensures ProfilesView(profiles) == MapProfiles(old(ProfilesView(profiles)), f)
    {
      assert Dicts(base.profiles) !! Dicts(profiles);
      FixProfiles(profiles, f);
    }

    // ---- The parts of an edit that touch the configuration ----

    /** Install a profile under its identifier. */
    method PutProfile(id: string, prof: ProfileRef)
      requires Valid() && id !in working.profiles && LayersApart(prof.layers)
      requires LayerDicts(prof.layers) !! Dicts(working.profiles) + Dicts(base.profiles)
      modifies this
      ensures Valid() && Dicts(working.profiles) <= old(Dicts(working.profiles)) + LayerDicts(prof.layers)
      ensures Abstract() == Counted(old(Abstract()), old(View(working)).(
                profiles := old(View(working)).profiles[id := ProfileConfig(prof.profileId, LayersView(prof.layers))]), [])
    {
      ApartExtend(working.profiles, id, prof);
      ViewPut(working.profiles, id, prof);
      Install(working.(profiles := working.profiles[id := prof]), []);
    }

    /** Move a profile to another name, fixing references in place. */
    method MoveProfile(oldId: string, newId: string)
      requires Valid() && oldId in working.profiles && newId !in working.profiles
      modifies this, Dicts(working.profiles)
      ensures Valid() && Dicts(working.profiles) <= old(Dicts(working.profiles))
      ensures Abstract() == Counted(old(Abstract()), old(View(working)).(
                defaultProfile := if old(working.defaultProfile) == oldId then newId else old(working.defaultProfile),
                profiles := MapProfiles(DraftModel.RenameKey(old(View(working)).profiles, oldId, newId), ProfileFix(oldId, newId))),
              [Rename(true, "profiles." + oldId, oldId, newId)])
    {
      var profiles := DraftModel.RenameKey(working.profiles, oldId, newId);
      RenamedApart(working.profiles, oldId, newId);
      RenamedDicts(working.profiles, oldId, newId);
      RenamedView(working.profiles, oldId, newId);
      FixOwn(profiles, ProfileFix(oldId, newId));
      var defaultProfile := if working.defaultProfile == oldId then newId else working.defaultProfile;
      Install(working.(defaultProfile := defaultProfile, profiles := profiles),
              [Rename(true, "profiles." + oldId, oldId, newId)]);
    }

    method DropProfile(id: string)
      requires Valid()
      modifies this
      ensures Valid() && Dicts(working.profiles) <= old(Dicts(working.profiles))
      ensures Abstract() == Counted(old(Abstract()), old(View(working)).(profiles := old(View(working)).profiles - {id}), [])
    {
      ViewDrop(working.profiles, id);
      Install(working.(profiles := working.profiles - {id}), []);
    }

    /** Replace the layers of one profile, as every layer and action edit does. */
    method ReplaceLayers(p: string, layers: LayerRefs, initial: string, renames: seq<Rename>)
      requires Valid() && p in working.profiles && LayersMayReplace(working.profiles, p, layers)
      requires LayerDicts(layers) !! Dicts(base.profiles)
      modifies this
      ensures Valid() && Dicts(working.profiles) <= old(Dicts(working.profiles)) + LayerDicts(layers)
      ensures Abstract() == Counted(old(Abstract()),
                PutLayers(old(View(working)), p, LayersView(layers)).(initialLayer := initial), renames)
    {
      ReplacedApart(working.profiles, p, layers);
      ViewPut(working.profiles, p, ProfileRef(p, layers));
      Install(working.(initialLayer := initial, profiles := working.profiles[p := ProfileRef(p, layers)]), renames);
    }

    /** Give a layer a new dictionary. */
    method PutLayer(p: string, l: string, controls: ControlDict)
      requires Valid() && p in working.profiles
      requires controls !in Dicts(working.profiles) + Dicts(base.profiles)
      modifies this
      ensures Valid() && Dicts(working.profiles) <= old(Dicts(working.profiles)) + {controls}
      ensures Abstract() == Counted(old(Abstract()),
                PutLayers(old(View(working)), p, old(View(working)).profiles[p].layers[l := LayerConfig(l, controls.items)]), [])
    {
      PutLayerMayReplace(working.profiles, p, l, LayerRef(l, controls));
      ReplaceLayers(p, working.profiles[p].layers[l := LayerRef(l, controls)], working.initialLayer, []);
    }

    /** Fix the layers that will replace profile `p`'s: nothing of another profile changes. */
    method FixLayersOf(p: string, layers: LayerRefs, f: Action -> Action)
      requires Valid() && p in working.profiles && LayersMayReplace(working.profiles, p, layers)
      requires LayerDicts(layers) <= Dicts(working.profiles)
      modifies LayerDicts(layers)
      ensures View(base) == old(View(base))
      ensures PutLayers(View(working), p, LayersView(layers))
           == PutLayers(old(View(working)), p, MapLayers(old(LayersView(layers)), f))
    {
      ghost var before := ProfilesView(working.profiles);
      FixLayers(layers, f);
      forall q | q in working.profiles && q != p
        ensures LayersView(working.profiles[q].layers) == before[q].layers
      {
        assert LayerDicts(working.profiles[q].layers) !! LayerDicts(layers);
      }
      PutLayersSame(View(working), before, p, LayersView(layers));
    }

    method FixAndReplace(p: string, layers: LayerRefs, f: Action -> Action, initial: string, renames: seq<Rename>)
      requires Valid() && p in working.profiles && LayersMayReplace(working.profiles, p, layers)
      requires LayerDicts(layers) <= Dicts(working.profiles)
      modifies this, LayerDicts(layers)
      ensures Valid() && Dicts(working.profiles) <= old(Dicts(working.profiles))
      ensures Abstract() == Counted(old(Abstract()),
                PutLayers(old(View(working)), p, MapLayers(old(LayersView(layers)), f)).(initialLayer := initial), renames)
    {
      var cfg := working.(initialLayer := initial, profiles := working.profiles[p := ProfileRef(p, layers)]);
      ReplacedApart(working.profiles, p, layers);
      FixLayersOf(p, layers, f);
      ViewPut(working.profiles, p, ProfileRef(p, layers));
      Install(cfg, renames);
    }

    /** Move a layer to another name, fixing references within its profile in place. */
    method MoveLayer(p: string, l: string, k: string)
      requires Valid() && p in working.profiles && l in working.profiles[p].layers && k !in working.profiles[p].layers
      modifies this, Dicts(working.profiles)
      ensures Valid() && Dicts(working.profiles) <= old(Dicts(working.profiles))
      ensures Abstract() == Counted(old(Abstract()), LayerRenamed(old(View(working)), p, l, k),
                                    RecordsOf(OpRenameLayer(p, l, k)))
    {
      var layers := DraftModel.RenameKey(working.profiles[p].layers, l, k);
      RenamedLayersApart(working.profiles, p, l, k);
      var initial := if working.initialLayer == l then k else working.initialLayer;
      assert LayerRenamed(View(working), p, l, k)
          == PutLayers(View(working), p, MapLayers(LayersView(layers), LayerFix(l, k))).(initialLayer := initial);
      FixAndReplace(p, layers, LayerFix(l, k), initial, RecordsOf(OpRenameLayer(p, l, k)));
    }

    method DropLayer(p: string, l: string)
      requires Valid() && p in working.profiles
      modifies this
      ensures Valid() && Dicts(working.profiles) <= old(Dicts(working.profiles))
      ensures Abstract() == Counted(old(Abstract()),
                PutLayers(old(View(working)), p, old(View(working)).profiles[p].layers - {l}), [])
    {
      SubLayersMayReplace(working.profiles, p, l);
      ReplaceLayers(p, working.profiles[p].layers - {l}, working.initialLayer, []);
    }

    // ---- The edits ----

    method AddProfile(id: string) returns (success: bool)
      requires Valid()
      modifies this
      ensures Valid() && fresh(Dicts(working.profiles) - old(Dicts(working.profiles)))
      ensures Outcome(old(Abstract()), Abstract(), success, DraftModel.AddProfile(old(View(working)), id), [])
    {
      if !IsProfileId(id) || id in working.profiles { return false; }
      var controls := new ControlDict(map[]);
      OneLayer(GENERAL, LayerRef(GENERAL, controls));
      PutProfile(id, ProfileRef(id, map[GENERAL := LayerRef(GENERAL, controls)]));
      return true;
    }

    method RenameProfile(oldId: string, newId: string) returns (success: bool)
      requires Valid()
      modifies this, Dicts(working.profiles)
      ensures Valid() && Dicts(working.profiles) <= old(Dicts(working.profiles))
      ensures Outcome(old(Abstract()), Abstract(), success, DraftModel.RenameProfile(old(View(working)), oldId, newId),
                      RecordsOf(OpRenameProfile(oldId, newId)))
    {
      if !IsProfileId(oldId) || !IsProfileId(newId) { return false; }
      if oldId !in working.profiles || newId in working.profiles { return false; }
      MoveProfile(oldId, newId);
      return true;
    }

    method RemoveProfile(id: string) returns (success: bool)
      requires Valid()
      modifies this
      ensures Valid() && Dicts(working.profiles) <= old(Dicts(working.profiles))
      ensures Outcome(old(Abstract()), Abstract(), success, DraftModel.RemoveProfile(old(View(working)), id), [])
    {
      if !IsProfileId(id) || id !in working.profiles { return false; }
      SameSize(working.profiles, View(working).profiles);
      if |working.profiles| <= 1 || id == working.defaultProfile { return false; }
      var referred := FindReferences(working.profiles, Action.SetProfile(id));
      if referred { return false; }
      DropProfile(id);
      return true;
    }

    method SetDefaultProfile(id: string) returns (success: bool)
      requires Valid()
      modifies this
      ensures Valid() && Dicts(working.profiles) == old(Dicts(working.profiles))
      ensures Outcome(old(Abstract()), Abstract(), success, DraftModel.SetDefaultProfile(old(View(working)), id), [])
    {
      if !IsProfileId(id) || id !in working.profiles { return false; }
      if working.defaultProfile == id { return true; }
      Install(working.(defaultProfile := id), []);
      return true;
    }

    method AddLayer(p: string, l: string) returns (success: bool)
      requires Valid()
      modifies this
      ensures Valid() && fresh(Dicts(working.profiles) - old(Dicts(working.profiles)))
      ensures Outcome(old(Abstract()), Abstract(), success, DraftModel.AddLayer(old(View(working)), p, l), [])
    {
      if !IsProfileId(p) || !IsLayerId(l) || p !in working.profiles { return false; }
      if l in working.profiles[p].layers { return false; }
      var controls := new ControlDict(map[]);
      PutLayer(p, l, controls);
      return true;
    }

    method RenameLayer(p: string, l: string, k: string) returns (success: bool)
      requires Valid()
      modifies this, Dicts(working.profiles)
      ensures Valid() && Dicts(working.profiles) <= old(Dicts(working.profiles))
      ensures Outcome(old(Abstract()), Abstract(), success, DraftModel.RenameLayer(old(View(working)), p, l, k),
                      RecordsOf(OpRenameLayer(p, l, k)))
    {
      if !IsProfileId(p) || !IsLayerId(l) || !IsLayerId(k) || p !in working.profiles { return false; }
      if l !in working.profiles[p].layers || k in working.profiles[p].layers { return false; }
      MoveLayer(p, l, k);
      return true;
    }

    method RemoveLayer(p: string, l: string) returns (success: bool)
      requires Valid()
      modifies this
      ensures Valid() && Dicts(working.profiles) <= old(Dicts(working.profiles))
      ensures Outcome(old(Abstract()), Abstract(), success, DraftModel.RemoveLayer(old(View(working)), p, l), [])
    {
      if !IsProfileId(p) || !IsLayerId(l) || p !in working.profiles { return false; }
      SameSize(working.profiles[p].layers, View(working).profiles[p].layers);
      if l !in working.profiles[p].layers || l == GENERAL || |working.profiles[p].layers| <= 1 { return false; }
      var referred := FindReferences(working.profiles, Action.SetLayer(l));
      if referred { return false; }
      DropLayer(p, l);
      return true;
    }

    method SetInitialLayer(l: string) returns (success: bool)
      requires Valid()
      modifies this
      ensures Valid() && Dicts(working.profiles) == old(Dicts(working.profiles))
      ensures Outcome(old(Abstract()), Abstract(), success, DraftModel.SetInitialLayer(old(View(working)), l), [])
    {
      if !IsLayerId(l) { return false; }
      if working.initialLayer == l { return true; }
      Install(working.(initialLayer := l), []);
      return true;
    }

    method SetAction(p: string, l: string, c: string, a: Action) returns (success: bool)
      requires Valid()
      modifies this
      ensures Valid() && fresh(Dicts(working.profiles) - old(Dicts(working.profiles)))
      ensures Outcome(old(Abstract()), Abstract(), success, DraftModel.SetAction(old(View(working)), p, l, c, a), [])
    {
      if !IsProfileId(p) || !IsLayerId(l) || !IsControl(c) || p !in working.profiles { return false; }
      if l !in working.profiles[p].layers { return false; }
      var controls := new ControlDict(working.profiles[p].layers[l].controls.items[c := a]);
      PutLayer(p, l, controls);
      return true;
    }

    method ClearAction(p: string, l: string, c: string) returns (success: bool)
      requires Valid()
      modifies this
      ensures Valid() && fresh(Dicts(working.profiles) - old(Dicts(working.profiles)))
      ensures Outcome(old(Abstract()), Abstract(), success, DraftModel.ClearAction(old(View(working)), p, l, c), [])
    {
      if !IsProfileId(p) || !IsLayerId(l) || !IsControl(c) || p !in working.profiles { return false; }
      if l !in working.profiles[p].layers { return false; }
      if c !in working.profiles[p].layers[l].controls.items { return true; }
      var controls := new ControlDict(working.profiles[p].layers[l].controls.items - {c});
      PutLayer(p, l, controls);
      return true;
    }
  }

  /** One edit, whichever it is. */
  method Apply(d: ConfigDraft, op: Op) returns (success: bool)
    requires d.Valid()
    modifies d, Dicts(d.working.profiles)
    ensures d.Valid() && fresh(Dicts(d.working.profiles) - old(Dicts(d.working.profiles)))
    ensures Outcome(old(d.Abstract()), d.Abstract(), success, EditOf(old(View(d.working)), op), RecordsOf(op))
  {
    match op {
      case OpAddProfile(p) => success := d.AddProfile(p);
      case OpRenameProfile(p, q) => success := d.RenameProfile(p, q);
      case OpRemoveProfile(p) => success := d.RemoveProfile(p);
      case OpSetDefaultProfile(p) => success := d.SetDefaultProfile(p);
      case OpAddLayer(p, l) => success := d.AddLayer(p, l);
      case OpRenameLayer(p, l, k) => success := d.RenameLayer(p, l, k);
      case OpRemoveLayer(p, l) => success := d.RemoveLayer(p, l);
      case OpSetInitialLayer(l) => success := d.SetInitialLayer(l);
      case OpSetAction(p, l, c, a) => success := d.SetAction(p, l, c, a);
      case OpClearAction(p, l, c) => success := d.ClearAction(p, l, c);
    }
  }

  /** Any sequence of edits on the objects is the run of the edit model: in particular the base's
      object graph still holds what it held. */
  method ApplyAll(d: ConfigDraft, ops: seq<Op>)
    requires d.Valid()
    modifies d, Dicts(d.working.profiles)
    ensures d.Valid() && d.Abstract() == Run(old(d.Abstract()), ops)
    ensures View(d.base) == old(View(d.base))
  {
    ghost var start := d.Abstract();
    RunKeepsBase(start, ops);
    for i := 0 to |ops|
      invariant d.Valid() && fresh(Dicts(d.working.profiles) - old(Dicts(d.working.profiles)))
      invariant d.Abstract() == Run(start, ops[..i])
    {
      ghost var before := d.Abstract();
      var success := Apply(d, ops[i]);
      OutcomeIsStep(before, d.Abstract(), success, ops[i]);
      assert ops[..i + 1][..i] == ops[..i];
    }
    assert ops[..|ops|] == ops;
  }

  lemma {:induction false} RunKeepsBase(d: Draft, ops: seq<Op>)
    ensures Run(d, ops).base == d.base
  {
    if ops != [] { RunKeepsBase(d, ops[..|ops| - 1]); }
  }

  lemma SameSize<T, U>(m: map<string, T>, n: map<string, U>)
    requires m.Keys == n.Keys
    ensures |m| == |n|
  {
    assert |m| == |m.Keys| && |n| == |n.Keys|;
  }

  predicate DiffersOnlyAt(profiles: Profiles, before: Profiles, p: string) {
    profiles.Keys == before.Keys && forall q :: q in profiles && q != p ==> profiles[q] == before[q]
  }

  lemma PutLayersSame(cfg: LayeredControlConfig, before: Profiles, p: string, layers: map<string, LayerConfig>)
    requires p in before && DiffersOnlyAt(cfg.profiles, before, p)
    ensures PutLayers(cfg, p, layers) == PutLayers(cfg.(profiles := before), p, layers)
  {
    assert cfg.profiles[p := ProfileConfig(p, layers)] == before[p := ProfileConfig(p, layers)];
  }

  twostate lemma Untouched(cfg: ConfigRef)
    requires forall d :: d in Dicts(cfg.profiles) ==> unchanged(d)
    ensures View(cfg) == old(View(cfg))
  {
    assert ProfilesView(cfg.profiles) == old(ProfilesView(cfg.profiles));
  }

  // ---- Keeping dictionaries apart ----

  /** These layers may become profile `p`'s: apart from each other and from every other profile's. */
  ghost predicate LayersMayReplace(profiles: ProfileRefs, p: string, layers: LayerRefs) {
    && LayersApart(layers)
    && forall q, k :: q in profiles && q != p && k in profiles[q].layers ==>
         profiles[q].layers[k].controls !in LayerDicts(layers)
  }

  lemma ReplacedApart(profiles: ProfileRefs, p: string, layers: LayerRefs)
    requires Apart(profiles) && p in profiles && LayersMayReplace(profiles, p, layers)
    ensures Apart(profiles[p := ProfileRef(p, layers)])
    ensures Dicts(profiles[p := ProfileRef(p, layers)]) <= Dicts(profiles) + LayerDicts(layers)
  {
    assert forall l :: l in layers ==> layers[l].controls in LayerDicts(layers);
  }

  lemma OneLayer(l: string, layer: LayerRef)
    ensures LayersApart(map[l := layer]) && LayerDicts(map[l := layer]) == {layer.controls}
    ensures LayersView(map[l := layer]) == map[l := LayerConfig(layer.layerId, layer.controls.items)]
  {
    assert map[l := layer][l].controls == layer.controls;
  }

  lemma ViewPut(profiles: ProfileRefs, p: string, prof: ProfileRef)
    ensures ProfilesView(profiles[p := prof])
         == ProfilesView(profiles)[p := ProfileConfig(prof.profileId, LayersView(prof.layers))]
  {
  }

  lemma ViewDrop(profiles: ProfileRefs, p: string)
    ensures ProfilesView(profiles - {p}) == ProfilesView(profiles) - {p}
  {
  }

  lemma PutLayerView(layers: LayerRefs, l: string, layer: LayerRef)
    ensures LayersView(layers[l := layer]) == LayersView(layers)[l := LayerConfig(layer.layerId, layer.controls.items)]
  {
  }

  lemma PutLayerMayReplace(profiles: ProfileRefs, p: string, l: string, layer: LayerRef)
    requires Apart(profiles) && p in profiles && layer.controls !in Dicts(profiles)
    ensures LayersMayReplace(profiles, p, profiles[p].layers[l := layer])
    ensures LayerDicts(profiles[p].layers[l := layer]) <= Dicts(profiles) + {layer.controls}
    ensures LayersView(profiles[p].layers[l := layer])
         == LayersView(profiles[p].layers)[l := LayerConfig(layer.layerId, layer.controls.items)]
  {
    PutLayerView(profiles[p].layers, l, layer);
    assert forall q, k :: q in profiles && k in profiles[q].layers ==> profiles[q].layers[k].controls in Dicts(profiles);
  }

  lemma SubLayersMayReplace(profiles: ProfileRefs, p: string, l: string)
    requires Apart(profiles) && p in profiles
    ensures LayersMayReplace(profiles, p, profiles[p].layers - {l})
    ensures LayerDicts(profiles[p].layers - {l}) <= Dicts(profiles)
    ensures LayersView(profiles[p].layers - {l}) == LayersView(profiles[p].layers) - {l}
  {
  }

  lemma RenamedApart(profiles: ProfileRefs, old_: string, new_: string)
    requires Apart(profiles) && old_ in profiles && new_ !in profiles
    ensures Apart(RenameKey(profiles, old_, new_))
  {
  }

  lemma RenamedDicts(profiles: ProfileRefs, old_: string, new_: string)
    requires old_ in profiles && new_ !in profiles
    ensures Dicts(RenameKey(profiles, old_, new_)) <= Dicts(profiles)
  {
  }

  lemma RenamedView(profiles: ProfileRefs, old_: string, new_: string)
    requires old_ in profiles && new_ !in profiles
    ensures ProfilesView(RenameKey(profiles, old_, new_)) == RenameKey(ProfilesView(profiles), old_, new_)
  {
  }

  lemma RenamedLayersApart(profiles: ProfileRefs, p: string, old_: string, new_: string)
    requires Apart(profiles) && p in profiles && old_ in profiles[p].layers && new_ !in profiles[p].layers
    ensures var layers := RenameKey(profiles[p].layers, old_, new_);
            && LayersMayReplace(profiles, p, layers) && LayerDicts(layers) <= Dicts(profiles)
            && LayersView(layers) == RenameKey(LayersView(profiles[p].layers), old_, new_)
  {
    RenameKeyValues(profiles[p].layers, old_, new_);
  }

  // ---- Finding references ----

  method FindInLayers(layers: LayerRefs, a: Action) returns (found: bool)
    ensures found <==> LayersRefer(LayersView(layers), a)
  {
    var todo := layers.Keys;
    while todo != {}
      invariant todo <= layers.Keys
      invariant forall l :: l in layers && l !in todo ==> a !in layers[l].controls.items.Values
      decreases todo
    {
      var l :| l in todo;
      if a in layers[l].controls.items.Values {
        assert LayersView(layers)[l].controls == layers[l].controls.items;
        return true;
      }
      todo := todo - {l};
    }
    return false;
  }

  /** `_find_setprofile_refs_to` and `_find_setlayer_refs_to`, which both search every profile. */
  method FindReferences(profiles: ProfileRefs, a: Action) returns (found: bool)
    ensures found <==> Refers(ProfilesView(profiles), a)
  {
    var todo := profiles.Keys;
    while todo != {}
      invariant todo <= profiles.Keys
      invariant forall p :: p in profiles && p !in todo ==> !LayersRefer(LayersView(profiles[p].layers), a)
      decreases todo
    {
      var p :| p in todo;
      var inLayers := FindInLayers(profiles[p].layers, a);
      if inLayers {
        assert ProfilesView(profiles)[p].layers == LayersView(profiles[p].layers);
        return true;
      }
      todo := todo - {p};
    }
    return false;
  }
}
