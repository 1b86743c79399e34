/** The runtime context (`daemon/context.py`): the selected profile and the active layer, and every
    way they change. */
module RuntimeContext {
  import opened Wrappers
  import opened ControlModel
  import T = Text

  datatype ChangeSource = Startup | ControlAction | ManagementCli | ConfigReload

  datatype Context = Context(
    config: Option<LayeredControlConfig>, profile: string, layer: string, revision: nat, source: ChangeSource)

  // ---- Changes, as functions ----

  /** Move to a profile and layer; a move to where the context already is changes nothing. */
  function MoveTo(c: Context, profile: string, layer: string, source: ChangeSource): Context {
    if c.profile == profile && c.layer == layer then c
    else c.(profile := profile, layer := layer, revision := c.revision + 1, source := source)
  }

  /** The numbered layers, from `i` on, that the selected profile declares. */
  function Declared(layers: map<string, LayerConfig>, names: seq<string>): seq<string> {
    if names == [] then []
    else (if names[0] in layers then [names[0]] else []) + Declared(layers, names[1..])
  }

  function ProfileLayers(c: Context): map<string, LayerConfig>
    requires c.config.Some?
  {
    if c.profile in c.config.value.profiles then c.config.value.profiles[c.profile].layers else map[]
  }

  /** The layers that next and previous cycle through: general, then the declared numbered ones. */
  function Available(c: Context): seq<string>
    requires c.config.Some?
  {
    [GENERAL] + Declared(ProfileLayers(c), LAYER_NAMES[1..])
  }

  function IndexOf(s: seq<string>, x: string): (i: nat)
    requires x in s
    ensures i < |s| && s[i] == x
  {
    if s[0] == x then 0 else 1 + IndexOf(s[1..], x)
  }

  function NextName(available: seq<string>, layer: string): string
    requires available != []
  {
    if layer in available then available[(IndexOf(available, layer) + 1) % |available|]
    else if |available| > 1 then available[1] else available[0]
  }

  function PreviousName(available: seq<string>, layer: string): string
    requires available != []
  {
    if layer in available then available[(IndexOf(available, layer) - 1) % |available|]
    else available[|available| - 1]
  }

  /** `set_layer`; nothing when the name is no layer identifier. */
  function SetLayerTo(c: Context, layer: string, source: ChangeSource): Option<Context> {
    if IsLayerId(layer) then Some(MoveTo(c, c.profile, layer, source)) else None
  }

  function NextLayerOf(c: Context, source: ChangeSource): Context {
    if c.config.None? then c else MoveTo(c, c.profile, NextName(Available(c), c.layer), source)
  }

  function PreviousLayerOf(c: Context, source: ChangeSource): Context {
    if c.config.None? then c else MoveTo(c, c.profile, PreviousName(Available(c), c.layer), source)
  }

  /** `set_profile`; nothing when the profile is malformed or unknown. */
  function SetProfileTo(c: Context, profile: string, source: ChangeSource): Option<Context> {
    if c.config.None? then Some(c)
    else if !IsProfileId(profile) || profile !in c.config.value.profiles then None
    else Some(MoveTo(c, profile, c.config.value.initialLayer, source))
  }

  /** `reconcile_after_reload` keeps the profile if it still exists, and then the layer if it is
      declared there or is the new initial layer. */
  function Reconcile(c: Context, cfg: LayeredControlConfig): Context {
    var c1 := c.(config := Some(cfg));
    if c.profile in cfg.profiles then
      if c.layer in cfg.profiles[c.profile].layers then c1
      else MoveTo(c1, c.profile, cfg.initialLayer, ConfigReload)
    else
      c1.(profile := cfg.defaultProfile, layer := cfg.initialLayer, revision := c.revision + 1, source := ConfigReload)
  }

  // ---- The class ----

  class RuntimeContextManager {
    var config: Option<LayeredControlConfig>
    var selectedProfile: string
    var activeLayer: string
    var revision: nat
    var lastChangeSource: ChangeSource

    function Abstract(): Context
      reads this
    {
      Context(config, selectedProfile, activeLayer, revision, lastChangeSource)
    }

    constructor (defaultProfile: string, initialLayer: string)
      ensures Abstract() == Context(None, defaultProfile, initialLayer, 0, Startup)
    {
      config := None;
      selectedProfile := defaultProfile;
      activeLayer := initialLayer;
      revision := 0;
      lastChangeSource := Startup;
    }

    method SetConfig(cfg: LayeredControlConfig)
      modifies this
      ensures Abstract() == old(Abstract()).(config := Some(cfg))
    {
      config := Some(cfg);
    }

    method SetLayer(layer: string, source: ChangeSource) returns (changed: Option<bool>)
      modifies this
      ensures changed.Some? <==> SetLayerTo(old(Abstract()), layer, source).Some?
      ensures Abstract() == if changed.Some? then SetLayerTo(old(Abstract()), layer, source).value else old(Abstract())
      ensures changed.Some? ==> (changed.value <==> Abstract() != old(Abstract()))
    {
      if !IsLayerId(layer) { return None; }
      if activeLayer == layer { return Some(false); }
      activeLayer := layer;
      revision := revision + 1;
      lastChangeSource := source;
      return Some(true);
    }

    /** The loop that gathers the available layers. */
    method GatherAvailable() returns (available: seq<string>)
      requires config.Some?
      ensures available == Available(Abstract())
    {
      available := [GENERAL];
      if selectedProfile in config.value.profiles {
        var layers := config.value.profiles[selectedProfile].layers;
        var names := LAYER_NAMES[1..];
        for i := 0 to |names|
          invariant available + Declared(layers, names[i..]) == [GENERAL] + Declared(layers, names)
        {
          assert names[i..][1..] == names[i + 1..];
          if names[i] in layers {
            assert available + ([names[i]] + Declared(layers, names[i + 1..]))
                == available + [names[i]] + Declared(layers, names[i + 1..]);
            available := available + [names[i]];
          } else {
            assert [] + Declared(layers, names[i + 1..]) == Declared(layers, names[i + 1..]);
          }
        }
        assert names[|names|..] == [] && available + [] == available;
      } else {
        NoneDeclared(LAYER_NAMES[1..]);
      }
    }

    method NextLayer(source: ChangeSource) returns (changed: bool)
      modifies this
      ensures Abstract() == NextLayerOf(old(Abstract()), source)
      ensures changed <==> Abstract() != old(Abstract())
    {
      if config.None? { return false; }
      var available := GatherAvailable();
      var next;
      if activeLayer in available {
        next := (IndexOf(available, activeLayer) + 1) % |available|;
      } else if |available| > 1 {
        next := 1;
      } else {
        next := 0;
      }
      if activeLayer == available[next] { return false; }
      activeLayer := available[next];
      revision := revision + 1;
      lastChangeSource := source;
      return true;
    }

    method PreviousLayer(source: ChangeSource) returns (changed: bool)
      modifies this
      ensures Abstract() == PreviousLayerOf(old(Abstract()), source)
      ensures changed <==> Abstract() != old(Abstract())
    {
      if config.None? { return false; }
      var available := GatherAvailable();
      var previous := |available| - 1;
      if activeLayer in available {
        previous := (IndexOf(available, activeLayer) - 1) % |available|;
      }
      if activeLayer == available[previous] { return false; }
      activeLayer := available[previous];
      revision := revision + 1;
      lastChangeSource := source;
      return true;
    }

    method SetProfile(profile: string, source: ChangeSource) returns (changed: Option<bool>)
      modifies this
      ensures changed.Some? <==> SetProfileTo(old(Abstract()), profile, source).Some?
      ensures Abstract() == if changed.Some? then SetProfileTo(old(Abstract()), profile, source).value else old(Abstract())
      ensures changed.Some? ==> (changed.value <==> Abstract() != old(Abstract()))
    {
      if config.None? { return Some(false); }
      if !IsProfileId(profile) || profile !in config.value.profiles { return None; }
      var initial := config.value.initialLayer;
      if selectedProfile == profile && activeLayer == initial { return Some(false); }
      selectedProfile := profile;
      activeLayer := initial;
      revision := revision + 1;
      lastChangeSource := source;
      return Some(true);
    }

    method ReconcileAfterReload(cfg: LayeredControlConfig) returns (changed: bool)
      modifies this
      ensures Abstract() == Reconcile(old(Abstract()), cfg)
      ensures changed <==> revision != old(revision)
    {
      config := Some(cfg);
      changed := false;
      if selectedProfile in cfg.profiles {
        if activeLayer !in cfg.profiles[selectedProfile].layers && activeLayer != cfg.initialLayer {
          activeLayer := cfg.initialLayer;
          changed := true;
        }
      } else {
        selectedProfile := cfg.defaultProfile;
        activeLayer := cfg.initialLayer;
        changed := true;
      }
      if changed {
        revision := revision + 1;
        lastChangeSource := ConfigReload;
      }
    }
  }

  lemma {:induction false} NoneDeclared(names: seq<string>)
    ensures Declared(map[], names) == []
  {
    if names != [] { NoneDeclared(names[1..]); }
  }

  // ---- Cycling ----

  lemma {:induction false} DeclaredIsSublist(layers: map<string, LayerConfig>, names: seq<string>)
    requires T.Distinct(names)
    ensures T.Distinct(Declared(layers, names))
    ensures forall x :: x in Declared(layers, names) <==> x in names && x in layers
  {
    if names != [] {
      DeclaredIsSublist(layers, names[1..]);
      assert names == [names[0]] + names[1..];
      assert names[0] !in names[1..];
      if names[0] in layers { DistinctCons(names[0], Declared(layers, names[1..])); }
    }
  }

  lemma DistinctCons(x: string, s: seq<string>)
    requires x !in s && T.Distinct(s)
    ensures T.Distinct([x] + s)
  {
    var r := [x] + s;
    assert forall i :: 1 <= i < |r| ==> r[i] == s[i - 1] && r[i] in s;
  }

  lemma AvailableIsCycle(c: Context)
    requires c.config.Some?
    ensures T.Distinct(Available(c))
    ensures forall x :: x in Available(c) <==> x == GENERAL || (x in LAYER_NAMES && x in ProfileLayers(c))
  {
    var others := LAYER_NAMES[1..];
    assert LAYER_NAMES == [GENERAL] + others && GENERAL !in others;
    DeclaredIsSublist(ProfileLayers(c), others);
    DistinctCons(GENERAL, Declared(ProfileLayers(c), others));
  }

  lemma IndexOfUnique(s: seq<string>, i: nat)
    requires T.Distinct(s) && i < |s|
    ensures IndexOf(s, s[i]) == i
  {
    var j := IndexOf(s, s[i]);
    assert s[j] == s[i];
  }

  lemma WrapAround(i: nat, n: nat)
    requires i < n
    ensures (i + 1) % n == if i + 1 < n then i + 1 else 0
    ensures (i - 1) % n == if i > 0 then i - 1 else n - 1
  {
    if i > 0 {
      assert (i - 1) % n == i - 1;
    } else {
      assert -1 == -1 * n + (n - 1);
    }
  }

  lemma NeighbourNames(available: seq<string>, i: nat)
    requires T.Distinct(available) && i < |available|
    ensures NextName(available, available[i]) == available[if i + 1 < |available| then i + 1 else 0]
    ensures PreviousName(available, available[i]) == available[if i > 0 then i - 1 else |available| - 1]
  {
    IndexOfUnique(available, i);
    WrapAround(i, |available|);
  }

  lemma NeighboursAreInverse(available: seq<string>, layer: string)
    requires available != [] && T.Distinct(available)
    ensures NextName(available, layer) in available && PreviousName(available, layer) in available
    ensures layer in available ==>
              PreviousName(available, NextName(available, layer)) == layer == NextName(available, PreviousName(available, layer))
  {
    if layer in available {
      var n, i := |available|, IndexOf(available, layer);
      NeighbourNames(available, i);
      NeighbourNames(available, if i + 1 < n then i + 1 else 0);
      NeighbourNames(available, if i > 0 then i - 1 else n - 1);
    }
  }

  /** Next and previous move to their neighbour and leave the cycle itself alone. */
  lemma NeighbourMoves(c: Context, source: ChangeSource)
    requires c.config.Some?
    ensures var next := NextLayerOf(c, source);
            next.layer == NextName(Available(c), c.layer) && next.config == c.config && Available(next) == Available(c)
    ensures var previous := PreviousLayerOf(c, source);
            && previous.layer == PreviousName(Available(c), c.layer)
            && previous.config == c.config && Available(previous) == Available(c)
  {
  }

  /** Previous undoes next, and next undoes previous, exactly when the active layer is one of the
      available ones: general or a layer its profile declares. */
  lemma PreviousUndoesNext(c: Context, source: ChangeSource)
    requires c.config.Some?
    ensures PreviousLayerOf(NextLayerOf(c, source), source).layer == c.layer <==> c.layer in Available(c)
    ensures NextLayerOf(PreviousLayerOf(c, source), source).layer == c.layer <==> c.layer in Available(c)
  {
    var next, previous := NextLayerOf(c, source), PreviousLayerOf(c, source);
    AvailableIsCycle(c);
    NeighbourMoves(c, source);
    NeighbourMoves(next, source);
    NeighbourMoves(previous, source);
    NeighboursAreInverse(Available(c), c.layer);
    NeighboursAreInverse(Available(c), next.layer);
    NeighboursAreInverse(Available(c), previous.layer);
  }

  /** The elements are names, listed in the order of the names. */
  predicate InOrderOf(s: seq<string>, names: seq<string>) {
    && (forall i :: 0 <= i < |s| ==> s[i] in names)
    && forall i, j :: 0 <= i < j < |s| ==> IndexOf(names, s[i]) < IndexOf(names, s[j])
  }

  lemma InOrderCons(x: string, s: seq<string>, names: seq<string>)
    requires InOrderOf(s, names) && x in names
    requires forall i :: 0 <= i < |s| ==> IndexOf(names, x) < IndexOf(names, s[i])
    ensures InOrderOf([x] + s, names)
  {
    var r := [x] + s;
    assert forall i :: 1 <= i < |r| ==> r[i] == s[i - 1];
    forall i, j | 0 <= i < j < |r| ensures IndexOf(names, r[i]) < IndexOf(names, r[j]) {
      assert r[j] == s[j - 1];
    }
  }

  lemma DeclaredCons(layers: map<string, LayerConfig>, names: seq<string>, k: nat)
    requires k < |names|
    ensures Declared(layers, names[k..])
         == if names[k] in layers then [names[k]] + Declared(layers, names[k + 1..]) else Declared(layers, names[k + 1..])
  {
    assert names[k..][1..] == names[k + 1..];
    assert [] + Declared(layers, names[k + 1..]) == Declared(layers, names[k + 1..]);
  }

  /** In order, and none before the `k`-th name. */
  predicate InOrderFrom(s: seq<string>, names: seq<string>, k: nat) {
    InOrderOf(s, names) && forall i :: 0 <= i < |s| ==> k <= IndexOf(names, s[i])
  }

  lemma InOrderFromCons(s: seq<string>, names: seq<string>, k: nat)
    requires T.Distinct(names) && k < |names| && InOrderFrom(s, names, k + 1)
    ensures InOrderFrom(s, names, k) && InOrderFrom([names[k]] + s, names, k)
  {
    IndexOfUnique(names, k);
    InOrderCons(names[k], s, names);
  }

  lemma {:induction false} DeclaredInOrder(layers: map<string, LayerConfig>, names: seq<string>, k: nat)
    requires T.Distinct(names) && k <= |names|
    ensures InOrderFrom(Declared(layers, names[k..]), names, k)
    decreases |names| - k
  {
    if k < |names| {
      DeclaredInOrder(layers, names, k + 1);
      DeclaredCons(layers, names, k);
      InOrderFromCons(Declared(layers, names[k + 1..]), names, k);
    }
  }

  lemma LayerNamesDistinct()
    ensures T.Distinct(LAYER_NAMES) && LAYER_NAMES[0] == GENERAL
  {
  }

  /** The cycle lists its layers in value order, general first. */
  lemma AvailableInOrder(c: Context)
    requires c.config.Some?
    ensures Available(c)[0] == GENERAL && InOrderOf(Available(c), LAYER_NAMES)
  {
    LayerNamesDistinct();
    IndexOfUnique(LAYER_NAMES, 0);
    DeclaredInOrder(ProfileLayers(c), LAYER_NAMES, 1);
    InOrderCons(GENERAL, Declared(ProfileLayers(c), LAYER_NAMES[1..]), LAYER_NAMES);
  }

  /** `x` comes after `layer` in the order of the names. */
  predicate Above(names: seq<string>, layer: string, x: string) {
    layer in names && x in names && IndexOf(names, layer) < IndexOf(names, x)
  }

  lemma SuccessorInOrder(s: seq<string>, names: seq<string>, i: nat)
    requires InOrderOf(s, names) && i < |s|
    ensures i + 1 < |s| ==> Above(names, s[i], s[i + 1])
    ensures forall x :: x in s && Above(names, s[i], x) ==> i + 1 < |s| && !Above(names, x, s[i + 1])
  {
    forall x | x in s && Above(names, s[i], x) ensures i + 1 < |s| && !Above(names, x, s[i + 1]) {
      var j :| 0 <= j < |s| && s[j] == x;
      assert j > i;
    }
  }

  /** From an available layer, next goes to the least available layer above it in value order, or
      back to general when there is none. */
  lemma NextIsSuccessor(c: Context, source: ChangeSource)
    requires c.config.Some? && c.layer in Available(c)
    ensures var available, next := Available(c), NextLayerOf(c, source).layer;
            if exists x :: x in available && Above(LAYER_NAMES, c.layer, x)
            then && next in available && Above(LAYER_NAMES, c.layer, next)
                 && forall x :: x in available && Above(LAYER_NAMES, c.layer, x) ==> !Above(LAYER_NAMES, x, next)
            else next == GENERAL
  {
    AvailableIsCycle(c);
    AvailableInOrder(c);
    NeighbourMoves(c, source);
    SuccessorOf(Available(c), LAYER_NAMES, c.layer);
  }

  lemma SuccessorOf(s: seq<string>, names: seq<string>, layer: string)
    requires InOrderOf(s, names) && T.Distinct(s) && layer in s
    ensures var next := NextName(s, layer);
            if exists x :: x in s && Above(names, layer, x)
            then && next in s && Above(names, layer, next)
                 && forall x :: x in s && Above(names, layer, x) ==> !Above(names, x, next)
            else next == s[0]
  {
    var i := IndexOf(s, layer);
    NeighbourNames(s, i);
    SuccessorInOrder(s, names, i);
  }

  // ---- Where each change lands ----

  /** General, or a layer the selected profile has. */
  predicate IsAvailable(c: Context, x: string) {
    || x == GENERAL
    || (x in LAYER_NAMES && c.config.Some? && c.profile in c.config.value.profiles
        && x in c.config.value.profiles[c.profile].layers)
  }

  /** `next` is the least available layer above `layer`, or general when there is none. */
  ghost predicate IsSuccessor(c: Context, layer: string, next: string) {
    if exists x :: IsAvailable(c, x) && Above(LAYER_NAMES, layer, x)
    then && IsAvailable(c, next) && Above(LAYER_NAMES, layer, next)
         && forall x :: IsAvailable(c, x) && Above(LAYER_NAMES, layer, x) ==> !Above(LAYER_NAMES, x, next)
    else next == GENERAL
  }

  /** Where cycling starts: the active layer, or general if that one is not available. */
  function Anchor(c: Context): string { if IsAvailable(c, c.layer) then c.layer else GENERAL }

  /** The context is there now; if it was not before, that is counted and its source remembered. */
  predicate LandsAt(c: Context, c1: Context, profile: string, layer: string, source: ChangeSource) {
    && c1.config == c.config && c1.profile == profile && c1.layer == layer
    && if c.profile == profile && c.layer == layer then c1.revision == c.revision && c1.source == c.source
       else c1.revision == c.revision + 1 && c1.source == source
  }

  lemma AvailableExactly(c: Context)
    requires c.config.Some?
    ensures T.Distinct(Available(c)) && Available(c)[0] == GENERAL
    ensures forall x :: x in Available(c) <==> IsAvailable(c, x)
  {
    AvailableIsCycle(c);
    AvailableInOrder(c);
  }

  lemma SuccessorInCycle(c: Context, layer: string)
    requires c.config.Some? && IsAvailable(c, layer)
    ensures layer in Available(c) && IsSuccessor(c, layer, NextName(Available(c), layer))
  {
    AvailableExactly(c);
    AvailableInOrder(c);
    SuccessorOf(Available(c), LAYER_NAMES, layer);
  }

  lemma NamesFromFirst(available: seq<string>, layer: string)
    requires available != [] && T.Distinct(available) && layer !in available
    ensures NextName(available, layer) == NextName(available, available[0])
    ensures PreviousName(available, layer) == PreviousName(available, available[0])
  {
    NeighbourNames(available, 0);
  }

  lemma CycleFromAnchor(c: Context)
    requires c.config.Some?
    ensures NextName(Available(c), c.layer) == NextName(Available(c), Anchor(c))
    ensures PreviousName(Available(c), c.layer) == PreviousName(Available(c), Anchor(c))
  {
    AvailableExactly(c);
    if !IsAvailable(c, c.layer) { NamesFromFirst(Available(c), c.layer); }
  }

  lemma NextLands(c: Context, source: ChangeSource)
    requires c.config.Some?
    ensures var next := NextLayerOf(c, source);
            LandsAt(c, next, c.profile, next.layer, source) && IsSuccessor(c, Anchor(c), next.layer)
  {
    NeighbourMoves(c, source);
    CycleFromAnchor(c);
    SuccessorInCycle(c, Anchor(c));
  }

  lemma PreviousLands(c: Context, source: ChangeSource)
    requires c.config.Some?
    ensures var previous := PreviousLayerOf(c, source);
            && LandsAt(c, previous, c.profile, previous.layer, source)
            && IsAvailable(c, previous.layer) && IsSuccessor(c, previous.layer, Anchor(c))
  {
    AvailableExactly(c);
    NeighbourMoves(c, source);
    CycleFromAnchor(c);
    NeighboursAreInverse(Available(c), Anchor(c));
    SuccessorInCycle(c, PreviousName(Available(c), Anchor(c)));
  }

  /** Next lands on the successor of where cycling starts; previous on the layer whose successor that is. */
  lemma CyclingLands(c: Context, source: ChangeSource)
    requires c.config.Some?
    ensures var next := NextLayerOf(c, source);
            LandsAt(c, next, c.profile, next.layer, source) && IsSuccessor(c, Anchor(c), next.layer)
    ensures var previous := PreviousLayerOf(c, source);
            && LandsAt(c, previous, c.profile, previous.layer, source)
            && IsAvailable(c, previous.layer) && IsSuccessor(c, previous.layer, Anchor(c))
  {
    NextLands(c, source);
    PreviousLands(c, source);
  }

  /** A layer is set as asked; a profile is set on the configuration's initial layer; a name that is
      none is refused. Without a configuration setting a profile or cycling does nothing. */
  lemma SettingLands(c: Context, name: string, source: ChangeSource)
    ensures var c1 := SetLayerTo(c, name, source);
            if IsLayerId(name) then c1.Some? && LandsAt(c, c1.value, c.profile, name, source) else c1.None?
    ensures var c1 := SetProfileTo(c, name, source);
            if c.config.None? then c1 == Some(c)
            else if IsProfileId(name) && name in c.config.value.profiles then
              c1.Some? && LandsAt(c, c1.value, name, c.config.value.initialLayer, source)
            else c1.None?
    ensures c.config.None? ==> NextLayerOf(c, source) == PreviousLayerOf(c, source) == c
  {
  }

  /** After a reload the profile stays if the new configuration has it, and then the layer if the
      profile has it; otherwise the default profile and the initial layer take over. */
  lemma ReloadLands(c: Context, cfg: LayeredControlConfig)
    ensures var c1 := Reconcile(c, cfg);
            && c1.config == Some(cfg)
            && (c.profile in cfg.profiles && c.layer in cfg.profiles[c.profile].layers ==> c1 == c.(config := Some(cfg)))
            && (c.profile in cfg.profiles && c.layer !in cfg.profiles[c.profile].layers ==>
                  LandsAt(c.(config := Some(cfg)), c1, c.profile, cfg.initialLayer, ConfigReload))
            && (c.profile !in cfg.profiles ==>
                  c1.profile == cfg.defaultProfile && c1.layer == cfg.initialLayer
                  && c1.revision == c.revision + 1 && c1.source == ConfigReload)
  {
  }

  // ---- Revisions ----

  function Position(c: Context): (string, string) { (c.profile, c.layer) }

  /** Every change moves the revision by one exactly when the profile and layer really change. */
  predicate Counted(before: Context, after: Context) {
    after.revision == before.revision + if Position(after) == Position(before) then 0 else 1
  }

  lemma ChangesAreCounted(c: Context, name: string, source: ChangeSource)
    ensures SetLayerTo(c, name, source).Some? ==> Counted(c, SetLayerTo(c, name, source).value)
    ensures Counted(c, NextLayerOf(c, source)) && Counted(c, PreviousLayerOf(c, source))
    ensures SetProfileTo(c, name, source).Some? ==> Counted(c, SetProfileTo(c, name, source).value)
  {
  }

  lemma ReloadIsCounted(c: Context, cfg: LayeredControlConfig)
    requires IsLoaded(cfg)
    ensures Counted(c, Reconcile(c, cfg))
    ensures Reconcile(c, cfg).profile in cfg.profiles
  {
  }
}
