/** No change is reported twice: between well-formed configurations, the paths of the differences
    (`configurator/diff.py`) tell profiles, layers, controls and macro steps apart. */
module DiffOnce {
  import opened Wrappers
  import opened ControlModel
  import opened ConfigDiff
  import T = Text

  // ---- Reporting once ----

  predicate SamePlace(g: Change, h: Change) { g.kind == h.kind && g.path == h.path }

  /** No kind is reported twice at one path. */
  predicate Once(cs: Changes) {
    forall i, j :: 0 <= i < j < |cs| ==> !SamePlace(cs[i], cs[j])
  }

  lemma OnceAppend(a: Changes, b: Changes)
    requires Once(a) && Once(b)
    requires forall g, h :: g in a && h in b ==> !SamePlace(g, h)
    ensures Once(a + b)
  {
    var c := a + b;
    forall i, j | 0 <= i < j < |c| ensures !SamePlace(c[i], c[j]) {
      if i < |a| <= j { assert c[i] in a && c[j] in b; }
    }
  }

  predicate AllOf(cs: Changes, kinds: set<Kind>) { forall ch :: ch in cs ==> ch.kind in kinds }

  lemma OnceByKind(a: Changes, b: Changes, ks: set<Kind>, ls: set<Kind>)
    requires Once(a) && Once(b) && AllOf(a, ks) && AllOf(b, ls) && ks !! ls
    ensures Once(a + b) && AllOf(a + b, ks + ls)
  {
    OnceAppend(a, b);
  }

  lemma {:induction false} CountOnce(cs: Changes, k: Kind, path: string)
    requires Once(cs)
    ensures Count(cs, k, path) == if exists ch :: ch in cs && ch.kind == k && ch.path == path then 1 else 0
  {
    if cs != [] {
      var rest := cs[1..];
      assert cs == [cs[0]] + rest && forall j :: 0 <= j < |rest| ==> rest[j] == cs[j + 1];
      CountOnce(rest, k, path);
      if cs[0].kind == k && cs[0].path == path {
        assert forall ch :: ch in rest ==> !SamePlace(cs[0], ch);
        assert cs[0] in cs;
      } else if exists ch :: ch in cs && ch.kind == k && ch.path == path {
        var ch :| ch in cs && ch.kind == k && ch.path == path;
        assert ch in rest;
      }
    }
  }

  // ---- Names in paths ----

  predicate NoDot(s: string) { forall i :: 0 <= i < |s| ==> s[i] != '.' }

  predicate Starts(path: string, prefix: string) { |prefix| <= |path| && path[..|prefix|] == prefix }

  /** The path begins with the prefix and the name, which ends there or at a dot. */
  predicate Under(path: string, prefix: string, name: string) {
    && Starts(path, prefix + name)
    && (|path| == |prefix| + |name| || path[|prefix| + |name|] == '.')
  }

  lemma StartsAt(path: string, prefix: string, name: string)
    requires Starts(path, prefix + name)
    ensures Starts(path, prefix) && forall i :: 0 <= i < |name| ==> path[|prefix| + i] == name[i]
  {
    assert (prefix + name)[..|prefix|] == prefix;
    assert path[..|prefix + name|][..|prefix|] == path[..|prefix|];
    forall i | 0 <= i < |name| ensures path[|prefix| + i] == name[i] {
      assert path[..|prefix + name|][|prefix| + i] == (prefix + name)[|prefix| + i];
    }
  }

  lemma ShorterIsSame(path: string, prefix: string, x: string, y: string)
    requires NoDot(y) && Under(path, prefix, x) && Under(path, prefix, y) && |x| <= |y|
    ensures x == y
  {
    StartsAt(path, prefix, x);
    StartsAt(path, prefix, y);
    if |x| < |y| { assert false; }
  }

  /** A path is under one name only. */
  lemma UnderOne(path: string, prefix: string, x: string, y: string)
    requires NoDot(x) && NoDot(y) && Under(path, prefix, x) && Under(path, prefix, y)
    ensures x == y
  {
    if |x| <= |y| { ShorterIsSame(path, prefix, x, y); } else { ShorterIsSame(path, prefix, y, x); }
  }

  lemma StartsUnder(path: string, prefix: string, name: string, more: string)
    requires more != "" && more[0] == '.' && Starts(path, (prefix + name) + more)
    ensures Under(path, prefix, name)
  {
    StartsAt(path, prefix + name, more);
  }

  predicate AllUnder(cs: Changes, prefix: string, name: string) { forall ch :: ch in cs ==> Under(ch.path, prefix, name) }

  predicate AllStart(cs: Changes, prefix: string) { forall ch :: ch in cs ==> Starts(ch.path, prefix) }

  lemma AllStartUnder(cs: Changes, prefix: string, name: string, more: string)
    requires more != "" && more[0] == '.' && AllStart(cs, (prefix + name) + more)
    ensures AllUnder(cs, prefix, name)
  {
    forall ch | ch in cs ensures Under(ch.path, prefix, name) { StartsUnder(ch.path, prefix, name, more); }
  }

  // ---- One piece of the report for each name ----

  /** The piece reported for a name is under it, of these kinds, and reports nothing twice. */
  predicate Piece(cs: Changes, prefix: string, name: string, kinds: set<Kind>) {
    NoDot(name) && Once(cs) && AllUnder(cs, prefix, name) && AllOf(cs, kinds)
  }

  lemma GatherPieces(xs: seq<string>, f: string -> Changes, prefix: string, kinds: set<Kind>)
    requires forall x :: x in xs ==> Piece(f(x), prefix, x, kinds)
    ensures AllStart(T.ConcatMap(xs, f), prefix) && AllOf(T.ConcatMap(xs, f), kinds)
  {
    forall ch | ch in T.ConcatMap(xs, f) ensures Starts(ch.path, prefix) && ch.kind in kinds {
      InGather(xs, f, ch);
      var x :| x in xs && ch in f(x);
      assert Under(ch.path, prefix, x);
      StartsAt(ch.path, prefix, x);
    }
  }

  lemma {:induction false} GatherOnce(xs: seq<string>, f: string -> Changes, prefix: string, kinds: set<Kind>)
    requires T.Distinct(xs) && forall x :: x in xs ==> Piece(f(x), prefix, x, kinds)
    ensures Once(T.ConcatMap(xs, f))
  {
    if xs != [] {
      var x, rest := xs[0], xs[1..];
      assert xs == [x] + rest;
      GatherOnce(rest, f, prefix, kinds);
      forall g, h | g in f(x) && h in T.ConcatMap(rest, f) ensures !SamePlace(g, h) {
        InGather(rest, f, h);
        var y :| y in rest && h in f(y);
        if g.path == h.path { UnderOne(g.path, prefix, x, y); }
      }
      OnceAppend(f(x), T.ConcatMap(rest, f));
    }
  }

  /** A part of the report: its changes start so, are of these kinds, and none is there twice. */
  predicate Section(cs: Changes, prefix: string, kinds: set<Kind>) {
    Once(cs) && AllStart(cs, prefix) && AllOf(cs, kinds)
  }

  lemma SortedGather(names: set<string>, f: string -> Changes, prefix: string, kinds: set<Kind>)
    requires forall x :: x in names ==> Piece(f(x), prefix, x, kinds)
    ensures Section(T.ConcatMap(T.Sorted(names), f), prefix, kinds)
  {
    T.SortedIncreases(names);
    GatherOnce(T.Sorted(names), f, prefix, kinds);
    GatherPieces(T.Sorted(names), f, prefix, kinds);
  }

  lemma OnePiece(prefix: string, name: string, kind: Kind, risk: Risk)
    requires NoDot(name)
    ensures Piece(One(prefix, kind, risk)(name), prefix, name, {kind})
  {
  }

  lemma NamesOnce(names: set<string>, prefix: string, kind: Kind, risk: Risk)
    requires forall x :: x in names ==> NoDot(x)
    ensures Section(T.ConcatMap(T.Sorted(names), One(prefix, kind, risk)), prefix, {kind})
  {
    forall x | x in names ensures Piece(One(prefix, kind, risk)(x), prefix, x, {kind}) { OnePiece(prefix, x, kind, risk); }
    SortedGather(names, One(prefix, kind, risk), prefix, {kind});
  }

  // ---- Controls and macro steps ----

  const SUB_KINDS: set<Kind> := {MacroStepAdded, MacroStepRemoved, MacroStepChanged, RuntimeTargetChanged}

  const CONTROL_KINDS: set<Kind> := SUB_KINDS + {ControlMapped, ControlUnmapped, ControlActionChanged}

  lemma StepPathStarts(path: string, i: nat)
    ensures Starts(StepPath(path, i), path + ".steps[")
  {
  }

  lemma StepPathsDiffer(path: string, i: nat, j: nat)
    requires StepPath(path, i) == StepPath(path, j)
    ensures i == j
  {
    var prefix := path + ".steps[";
    assert StepPath(path, i)[|prefix|..|StepPath(path, i)| - 1] == T.Decimal(i);
    assert StepPath(path, j)[|prefix|..|StepPath(path, j)| - 1] == T.Decimal(j);
    T.DecimalDenotes(i);
    T.DecimalDenotes(j);
  }

  /** Each reported step is one before index `n`. */
  predicate AreSteps(cs: Changes, path: string, n: nat) {
    forall ch :: ch in cs ==> ch.kind in SUB_KINDS && exists i :: 0 <= i < n && ch.path == StepPath(path, i)
  }

  lemma {:induction false} StepsOnce(path: string, b: seq<Action>, d: seq<Action>, n: nat)
    ensures Once(StepChanges(path, b, d, n)) && AreSteps(StepChanges(path, b, d, n), path, n)
  {
    if n > 0 {
      var before, last := StepChanges(path, b, d, n - 1), StepChange(StepPath(path, n - 1), StepAt(b, n - 1), StepAt(d, n - 1));
      StepsOnce(path, b, d, n - 1);
      forall g, h | g in before && h in last ensures !SamePlace(g, h) {
        var i :| 0 <= i < n - 1 && g.path == StepPath(path, i);
        if g.path == h.path { StepPathsDiffer(path, i, n - 1); }
      }
      OnceAppend(before, last);
      forall ch | ch in before ensures exists i :: 0 <= i < n && ch.path == StepPath(path, i) {
        var i :| 0 <= i < n - 1 && ch.path == StepPath(path, i);
      }
      assert forall ch :: ch in last ==> ch.path == StepPath(path, n - 1);
    }
  }

  lemma SubOnce(path: string, b: Action, d: Action)
    ensures Once(SubChanges(path, b, d)) && AllOf(SubChanges(path, b, d), SUB_KINDS)
    ensures forall ch :: ch in SubChanges(path, b, d) ==> ch.path == path || Starts(ch.path, path + ".steps[")
  {
    if b.Macro? && d.Macro? {
      var n := Longer(b.steps, d.steps);
      StepsOnce(path, b.steps, d.steps, n);
      forall ch | ch in SubChanges(path, b, d) ensures Starts(ch.path, path + ".steps[") {
        var i :| 0 <= i < n && ch.path == StepPath(path, i);
        StepPathStarts(path, i);
      }
    }
  }

  lemma ControlOnce(path: string, b: Option<Action>, d: Option<Action>)
    ensures Once(ControlChanges(path, b, d)) && AllOf(ControlChanges(path, b, d), CONTROL_KINDS)
    ensures forall ch :: ch in ControlChanges(path, b, d) ==> ch.path == path || Starts(ch.path, path + ".steps[")
  {
    if b.Some? && d.Some? && b != d {
      SubOnce(path, b.value, d.value);
      OnceByKind(SubChanges(path, b.value, d.value),
                 [Change(path, ControlActionChanged, MaxRisk(RiskAction(b.value), RiskAction(d.value)))],
                 SUB_KINDS, {ControlActionChanged});
    }
  }

  lemma UnderItself(prefix: string, name: string, path: string)
    requires path == prefix + name || Starts(path, (prefix + name) + ".steps[")
    ensures Under(path, prefix, name)
  {
    if path != prefix + name { StartsUnder(path, prefix, name, ".steps["); }
  }

  lemma ControlPiece(path: string, b: Controls, d: Controls, c: string)
    requires NoDot(c)
    ensures Piece(ControlsDiffer(path, b, d)(c), path + ".controls.", c, CONTROL_KINDS)
  {
    var prefix := path + ".controls.";
    ControlOnce(prefix + c, Mapped(b, c), Mapped(d, c));
    forall ch | ch in ControlsDiffer(path, b, d)(c) ensures Under(ch.path, prefix, c) { UnderItself(prefix, c, ch.path); }
  }

  lemma ControlHasNoDot(c: string)
    requires IsControl(c)
    ensures NoDot(c)
  {
  }

  lemma LayerOnce(path: string, b: Controls, d: Controls)
    requires WfControls(b) && WfControls(d)
    ensures Section(LayerChanges(path, b, d), path + ".controls.", CONTROL_KINDS)
  {
    forall c | c in b.Keys + d.Keys ensures Piece(ControlsDiffer(path, b, d)(c), path + ".controls.", c, CONTROL_KINDS) {
      ControlHasNoDot(c);
      ControlPiece(path, b, d, c);
    }
    SortedGather(b.Keys + d.Keys, ControlsDiffer(path, b, d), path + ".controls.", CONTROL_KINDS);
  }

  // ---- Layers and profiles ----

  const LAYER_KINDS: set<Kind> := CONTROL_KINDS + {LayerRemoved, LayerAdded}

  lemma LayerHasNoDot(l: string)
    requires IsLayerId(l)
    ensures NoDot(l)
  {
  }

  lemma ProfileHasNoDot(p: string)
    requires IsProfileId(p)
    ensures NoDot(p)
  {
    if !IsPlainProfileId(p) {
      forall i | 0 <= i < |p| - 1 ensures p[i] != '.' { assert p[..|p| - 1][i] == p[i]; }
    }
  }

  lemma LayerPiece(prefix: string, b: ProfileConfig, d: ProfileConfig, l: string)
    requires WfProfile(b) && WfProfile(d) && l in b.layers && l in d.layers
    ensures Piece(LayersDiffer(prefix, b, d)(l), prefix, l, CONTROL_KINDS)
  {
    LayerHasNoDot(l);
    LayerOnce(prefix + l, b.layers[l].controls, d.layers[l].controls);
    AllStartUnder(LayersDiffer(prefix, b, d)(l), prefix, l, ".controls.");
  }

  /** Three sections of the report that share no kind. */
  lemma SectionsOnce(removed: Changes, added: Changes, changed: Changes, prefix: string, r: Kind, a: Kind, kinds: set<Kind>)
    requires Section(removed, prefix, {r}) && Section(added, prefix, {a}) && Section(changed, prefix, kinds)
    requires r != a && r !in kinds && a !in kinds
    ensures Section(removed + added + changed, prefix, kinds + {r, a})
  {
    OnceByKind(removed, added, {r}, {a});
    OnceByKind(removed + added, changed, {r, a}, kinds);
  }

  /** The names removed, the names added, and a piece for each name that stays. */
  lemma NamedSections(before: set<string>, after: set<string>, f: string -> Changes, prefix: string, r: Kind, a: Kind, kinds: set<Kind>)
    requires forall x :: x in before + after ==> NoDot(x)
    requires forall x :: x in before * after ==> Piece(f(x), prefix, x, kinds)
    requires r != a && r !in kinds && a !in kinds
    ensures Section(T.ConcatMap(T.Sorted(before - after), One(prefix, r, HIGH))
                    + T.ConcatMap(T.Sorted(after - before), One(prefix, a, MEDIUM))
                    + T.ConcatMap(T.Sorted(before * after), f), prefix, kinds + {r, a})
  {
    NamesOnce(before - after, prefix, r, HIGH);
    NamesOnce(after - before, prefix, a, MEDIUM);
    SortedGather(before * after, f, prefix, kinds);
    SectionsOnce(T.ConcatMap(T.Sorted(before - after), One(prefix, r, HIGH)),
                 T.ConcatMap(T.Sorted(after - before), One(prefix, a, MEDIUM)),
                 T.ConcatMap(T.Sorted(before * after), f), prefix, r, a, kinds);
  }

  lemma KindsApart()
    ensures LayerRemoved !in CONTROL_KINDS && LayerAdded !in CONTROL_KINDS
    ensures ProfileRemoved !in LAYER_KINDS && ProfileAdded !in LAYER_KINDS
    ensures {InitialLayerChanged, DefaultProfileChanged} !! PROFILE_KINDS
  {
  }

  lemma ProfileOnce(path: string, b: ProfileConfig, d: ProfileConfig)
    requires WfProfile(b) && WfProfile(d)
    ensures Section(ProfileChanges(path, b, d), path + ".layers.", LAYER_KINDS)
  {
    var prefix := path + ".layers.";
    forall l | l in b.layers.Keys + d.layers.Keys ensures NoDot(l) { LayerHasNoDot(l); }
    forall l | l in b.layers.Keys * d.layers.Keys ensures Piece(LayersDiffer(prefix, b, d)(l), prefix, l, CONTROL_KINDS) {
      LayerPiece(prefix, b, d, l);
    }
    KindsApart();
    NamedSections(b.layers.Keys, d.layers.Keys, LayersDiffer(prefix, b, d), prefix, LayerRemoved, LayerAdded, CONTROL_KINDS);
  }

  predicate WfProfiles(profiles: Profiles) { forall p :: p in profiles ==> IsProfileId(p) && WfProfile(profiles[p]) }

  const PROFILE_KINDS: set<Kind> := LAYER_KINDS + {ProfileRemoved, ProfileAdded}

  lemma ProfilePiece(b: Profiles, d: Profiles, p: string)
    requires WfProfiles(b) && WfProfiles(d) && p in b && p in d
    ensures Piece(ProfilesDiffer(b, d)(p), "profiles.", p, LAYER_KINDS)
  {
    ProfileHasNoDot(p);
    ProfileOnce("profiles." + p, b[p], d[p]);
    AllStartUnder(ProfilesDiffer(b, d)(p), "profiles.", p, ".layers.");
  }

  lemma AllProfilesOnce(b: Profiles, d: Profiles)
    requires WfProfiles(b) && WfProfiles(d)
    ensures Section(AllProfileChanges(b, d), "profiles.", PROFILE_KINDS)
  {
    forall p | p in b.Keys + d.Keys ensures NoDot(p) { ProfileHasNoDot(p); }
    forall p | p in b.Keys * d.Keys ensures Piece(ProfilesDiffer(b, d)(p), "profiles.", p, LAYER_KINDS) {
      ProfilePiece(b, d, p);
    }
    KindsApart();
    NamedSections(b.Keys, d.Keys, ProfilesDiffer(b, d), "profiles.", ProfileRemoved, ProfileAdded, LAYER_KINDS);
  }

  // ---- The whole report ----

  lemma FieldOnce(path: string, kind: Kind, b: string, d: string)
    ensures Once(FieldChange(path, kind, b, d)) && AllOf(FieldChange(path, kind, b, d), {kind})
  {
  }

  lemma DiffIsOnce(b: LayeredControlConfig, d: LayeredControlConfig)
    requires WfConfig(b) && WfConfig(d)
    ensures Once(Diff(b, d))
  {
    var initial := FieldChange("initial_layer", InitialLayerChanged, b.initialLayer, d.initialLayer);
    var default := FieldChange("default_profile", DefaultProfileChanged, b.defaultProfile, d.defaultProfile);
    AllProfilesOnce(b.profiles, d.profiles);
    FieldOnce("initial_layer", InitialLayerChanged, b.initialLayer, d.initialLayer);
    FieldOnce("default_profile", DefaultProfileChanged, b.defaultProfile, d.defaultProfile);
    KindsApart();
    FieldsFirst(initial, default, AllProfileChanges(b.profiles, d.profiles), PROFILE_KINDS);
  }

  lemma FieldsFirst(initial: Changes, default: Changes, rest: Changes, kinds: set<Kind>)
    requires Once(initial) && AllOf(initial, {InitialLayerChanged}) && Once(default) && AllOf(default, {DefaultProfileChanged})
    requires Once(rest) && AllOf(rest, kinds) && {InitialLayerChanged, DefaultProfileChanged} !! kinds
    ensures Once(initial + default + rest)
  {
    OnceByKind(initial, default, {InitialLayerChanged}, {DefaultProfileChanged});
    OnceByKind(initial + default, rest, {InitialLayerChanged, DefaultProfileChanged}, kinds);
  }

  /** Between well-formed configurations a kind of change is reported at a path once if one is due
      there, and otherwise not at all. */
  lemma ReportedOnce(b: LayeredControlConfig, d: LayeredControlConfig, k: Kind, path: string)
    requires WfConfig(b) && WfConfig(d)
    ensures Count(Diff(b, d), k, path) == if exists risk :: Due(b, d, Change(path, k, risk)) then 1 else 0
  {
    DiffIsOnce(b, d);
    CountOnce(Diff(b, d), k, path);
    if exists ch :: ch in Diff(b, d) && ch.kind == k && ch.path == path {
      var ch :| ch in Diff(b, d) && ch.kind == k && ch.path == path;
      ReportedExactly(b, d, ch);
      assert ch == Change(path, k, ch.risk);
    } else if exists risk :: Due(b, d, Change(path, k, risk)) {
      var risk :| Due(b, d, Change(path, k, risk));
      ReportedExactly(b, d, Change(path, k, risk));
    }
  }
}
