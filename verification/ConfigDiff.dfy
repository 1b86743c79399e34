/** Semantic differences between two configurations (`configurator/diff.py`). */
module ConfigDiff {
  import opened Wrappers
  import opened ControlModel
  import T = Text

  // ---- Changes ----

  datatype Risk = LOW | MEDIUM | HIGH

  datatype Kind =
    | ProfileRemoved | ProfileAdded | LayerRemoved | LayerAdded
    | ControlMapped | ControlUnmapped | ControlActionChanged
    | MacroStepAdded | MacroStepRemoved | MacroStepChanged
    | RuntimeTargetChanged | DefaultProfileChanged | InitialLayerChanged

  datatype Change = Change(path: string, kind: Kind, risk: Risk)

  type Changes = seq<Change>

  function RiskOrder(r: Risk): nat {
    match r case LOW => 0 case MEDIUM => 1 case HIGH => 2
  }

  function RiskAction(a: Action): Risk {
    if a.Command? then HIGH else if a.SetProfile? then MEDIUM else LOW
  }

  function MaxRisk(a: Risk, b: Risk): Risk {
    if RiskOrder(a) >= RiskOrder(b) then a else b
  }

  // ---- Collecting in order ----

  lemma {:induction false} GatherEmpty(xs: seq<string>, f: string -> Changes)
    ensures T.ConcatMap(xs, f) == [] <==> forall x :: x in xs ==> f(x) == []
  {
    if xs != [] {
      GatherEmpty(xs[1..], f);
      assert forall x :: x in xs <==> x == xs[0] || x in xs[1..];
    }
  }

  // ---- The differences as a function ----

  function Mapped<V>(m: map<string, V>, k: string): Option<V> {
    if k in m then Some(m[k]) else None
  }

  function StepPath(path: string, i: nat): string { path + ".steps[" + T.Decimal(i) + "]" }

  function StepAt(steps: seq<Action>, i: nat): Option<Action> {
    if i < |steps| then Some(steps[i]) else None
  }

  function StepChange(path: string, b: Option<Action>, d: Option<Action>): Changes {
    if b.None? && d.Some? then [Change(path, MacroStepAdded, RiskAction(d.value))]
    else if b.Some? && d.None? then [Change(path, MacroStepRemoved, MEDIUM)]
    else if b != d then [Change(path, MacroStepChanged, MaxRisk(RiskAction(b.value), RiskAction(d.value)))]
    else []
  }

  /** The differing steps before index `n`. */
  function StepChanges(path: string, b: seq<Action>, d: seq<Action>, n: nat): Changes {
    if n == 0 then []
    else StepChanges(path, b, d, n - 1) + StepChange(StepPath(path, n - 1), StepAt(b, n - 1), StepAt(d, n - 1))
  }

  function Longer(b: seq<Action>, d: seq<Action>): nat { if |b| >= |d| then |b| else |d| }

  /** `_sub_control_diffs`. */
  function SubChanges(path: string, b: Action, d: Action): Changes {
    if b.Macro? && d.Macro? then StepChanges(path, b.steps, d.steps, Longer(b.steps, d.steps))
    else if (b.SetLayer? && d.SetLayer? && b.layer != d.layer) || (b.SetProfile? && d.SetProfile? && b.profile != d.profile)
    then [Change(path, RuntimeTargetChanged, MEDIUM)]
    else []
  }

  function ControlChanges(path: string, b: Option<Action>, d: Option<Action>): Changes {
    if b.None? && d.Some? then [Change(path, ControlMapped, RiskAction(d.value))]
    else if b.Some? && d.None? then [Change(path, ControlUnmapped, MEDIUM)]
    else if b != d then
      SubChanges(path, b.value, d.value)
      + [Change(path, ControlActionChanged, MaxRisk(RiskAction(b.value), RiskAction(d.value)))]
    else []
  }

  type Controls = map<string, Action>

  function ControlsDiffer(path: string, b: Controls, d: Controls): string -> Changes {
    c => ControlChanges(path + ".controls." + c, Mapped(b, c), Mapped(d, c))
  }

  function LayerChanges(path: string, b: Controls, d: Controls): Changes {
    T.ConcatMap(T.Sorted(b.Keys + d.Keys), ControlsDiffer(path, b, d))
  }

  function One(prefix: string, kind: Kind, risk: Risk): string -> Changes {
    name => [Change(prefix + name, kind, risk)]
  }

  function LayersDiffer(prefix: string, b: ProfileConfig, d: ProfileConfig): string -> Changes {
    l => if l in b.layers && l in d.layers then LayerChanges(prefix + l, b.layers[l].controls, d.layers[l].controls) else []
  }

  function ProfileChanges(path: string, b: ProfileConfig, d: ProfileConfig): Changes {
    var prefix := path + ".layers.";
    T.ConcatMap(T.Sorted(b.layers.Keys - d.layers.Keys), One(prefix, LayerRemoved, HIGH))
    + T.ConcatMap(T.Sorted(d.layers.Keys - b.layers.Keys), One(prefix, LayerAdded, MEDIUM))
    + T.ConcatMap(T.Sorted(b.layers.Keys * d.layers.Keys), LayersDiffer(prefix, b, d))
  }

  type Profiles = map<string, ProfileConfig>

  function ProfilesDiffer(b: Profiles, d: Profiles): string -> Changes {
    p => if p in b && p in d then ProfileChanges("profiles." + p, b[p], d[p]) else []
  }

  function AllProfileChanges(b: Profiles, d: Profiles): Changes {
    T.ConcatMap(T.Sorted(b.Keys - d.Keys), One("profiles.", ProfileRemoved, HIGH))
    + T.ConcatMap(T.Sorted(d.Keys - b.Keys), One("profiles.", ProfileAdded, MEDIUM))
    + T.ConcatMap(T.Sorted(b.Keys * d.Keys), ProfilesDiffer(b, d))
  }

  function FieldChange(path: string, kind: Kind, b: string, d: string): Changes {
    if b != d then [Change(path, kind, MEDIUM)] else []
  }

  /** `diff_configs`: the initial layer, the default profile, then the profiles. */
  function Diff(b: LayeredControlConfig, d: LayeredControlConfig): Changes {
    FieldChange("initial_layer", InitialLayerChanged, b.initialLayer, d.initialLayer)
    + FieldChange("default_profile", DefaultProfileChanged, b.defaultProfile, d.defaultProfile)
    + AllProfileChanges(b.profiles, d.profiles)
  }

  // ---- No differences ----

  predicate SameLayers(b: ProfileConfig, d: ProfileConfig) {
    b.layers.Keys == d.layers.Keys && forall l :: l in b.layers ==> b.layers[l].controls == d.layers[l].controls
  }

  /** The same default profile, initial layer, and profile, layer, control and action maps. */
  predicate SameMaps(b: LayeredControlConfig, d: LayeredControlConfig) {
    && b.defaultProfile == d.defaultProfile && b.initialLayer == d.initialLayer
    && b.profiles.Keys == d.profiles.Keys
    && forall p :: p in b.profiles ==> SameLayers(b.profiles[p], d.profiles[p])
  }

  lemma GatherOneEmpty(names: set<string>, prefix: string, kind: Kind, risk: Risk)
    ensures T.ConcatMap(T.Sorted(names), One(prefix, kind, risk)) == [] <==> names == {}
  {
    GatherEmpty(T.Sorted(names), One(prefix, kind, risk));
    if names != {} {
      var x :| x in names;
      assert x in T.Sorted(names) && One(prefix, kind, risk)(x) != [];
    }
  }

  lemma LayerEmpty(path: string, b: Controls, d: Controls)
    ensures LayerChanges(path, b, d) == [] <==> b == d
  {
    var f := ControlsDiffer(path, b, d);
    GatherEmpty(T.Sorted(b.Keys + d.Keys), f);
    if LayerChanges(path, b, d) == [] {
      forall c | c in b.Keys + d.Keys ensures Mapped(b, c) == Mapped(d, c) {
        assert c in T.Sorted(b.Keys + d.Keys) && f(c) == [];
      }
      assert b.Keys == d.Keys by {
        assert forall c :: c in b || c in d ==> Mapped(b, c) == Mapped(d, c);
      }
    }
  }

  lemma DifferenceEmpty(b: set<string>, d: set<string>)
    ensures b - d == {} && d - b == {} <==> b == d
  {
    if b - d == {} && d - b == {} {
      forall x ensures x in b <==> x in d {
        assert x !in b - d && x !in d - b;
      }
    }
  }

  lemma ProfileEmpty(path: string, b: ProfileConfig, d: ProfileConfig)
    ensures ProfileChanges(path, b, d) == [] <==> SameLayers(b, d)
  {
    var prefix := path + ".layers.";
    var f := LayersDiffer(prefix, b, d);
    GatherOneEmpty(b.layers.Keys - d.layers.Keys, prefix, LayerRemoved, HIGH);
    GatherOneEmpty(d.layers.Keys - b.layers.Keys, prefix, LayerAdded, MEDIUM);
    DifferenceEmpty(b.layers.Keys, d.layers.Keys);
    GatherEmpty(T.Sorted(b.layers.Keys * d.layers.Keys), f);
    forall l | l in b.layers && l in d.layers
      ensures f(l) == [] <==> b.layers[l].controls == d.layers[l].controls
    {
      LayerEmpty(prefix + l, b.layers[l].controls, d.layers[l].controls);
    }
    forall l | l in b.layers.Keys * d.layers.Keys ensures l in T.Sorted(b.layers.Keys * d.layers.Keys) { }
  }

  lemma AllProfilesEmpty(b: Profiles, d: Profiles)
    ensures AllProfileChanges(b, d) == [] <==> b.Keys == d.Keys && forall p :: p in b ==> SameLayers(b[p], d[p])
  {
    var f := ProfilesDiffer(b, d);
    GatherOneEmpty(b.Keys - d.Keys, "profiles.", ProfileRemoved, HIGH);
    GatherOneEmpty(d.Keys - b.Keys, "profiles.", ProfileAdded, MEDIUM);
    DifferenceEmpty(b.Keys, d.Keys);
    GatherEmpty(T.Sorted(b.Keys * d.Keys), f);
    forall p | p in b && p in d ensures f(p) == [] <==> SameLayers(b[p], d[p]) {
      ProfileEmpty("profiles." + p, b[p], d[p]);
    }
    forall p | p in b.Keys * d.Keys ensures p in T.Sorted(b.Keys * d.Keys) { }
  }

  /** Nothing is reported exactly when nothing differs. */
  lemma EmptyExactlyWhenSame(b: LayeredControlConfig, d: LayeredControlConfig)
    ensures Diff(b, d) == [] <==> SameMaps(b, d)
  {
    AllProfilesEmpty(b.profiles, d.profiles);
  }

  // ---- Mirroring ----

  function Mirror(k: Kind): Kind {
    match k
    case ProfileRemoved => ProfileAdded
    case ProfileAdded => ProfileRemoved
    case LayerRemoved => LayerAdded
    case LayerAdded => LayerRemoved
    case ControlMapped => ControlUnmapped
    case ControlUnmapped => ControlMapped
    case MacroStepAdded => MacroStepRemoved
    case MacroStepRemoved => MacroStepAdded
    case other => other
  }

  /** How often a kind is reported at a path. */
  function Count(cs: Changes, k: Kind, path: string): nat {
    if cs == [] then 0 else Count(cs[1..], k, path) + if cs[0].kind == k && cs[0].path == path then 1 else 0
  }

  lemma {:induction false} CountAppend(a: Changes, b: Changes, k: Kind, path: string)
    ensures Count(a + b, k, path) == Count(a, k, path) + Count(b, k, path)
  {
    if a == [] {
      assert a + b == b;
    } else {
      CountAppend(a[1..], b, k, path);
      assert (a + b)[1..] == a[1..] + b;
    }
  }

  /** One report has what the other has, mirrored, as often. */
  ghost predicate Mirrors(a: Changes, b: Changes) {
    forall k, path :: Count(a, k, path) == Count(b, Mirror(k), path)
  }

  lemma MirrorsAppend(a: Changes, b: Changes, a1: Changes, b1: Changes)
    requires Mirrors(a, a1) && Mirrors(b, b1)
    ensures Mirrors(a + b, a1 + b1)
  {
    forall k, path ensures Count(a + b, k, path) == Count(a1 + b1, Mirror(k), path) {
      CountAppend(a, b, k, path);
      CountAppend(a1, b1, Mirror(k), path);
    }
  }

  /** Two reports mirror each other if their sections do, removals against additions. */
  lemma SectionsMirror(removed: Changes, added: Changes, changed: Changes,
                       removed1: Changes, added1: Changes, changed1: Changes)
    requires Mirrors(removed1, added) && Mirrors(added1, removed) && Mirrors(changed1, changed)
    ensures Mirrors(removed1 + added1 + changed1, removed + added + changed)
  {
    forall k, path
      ensures Count(removed1 + added1 + changed1, k, path) == Count(removed + added + changed, Mirror(k), path)
    {
      CountAppend(removed1 + added1, changed1, k, path);
      CountAppend(removed1, added1, k, path);
      CountAppend(removed + added, changed, Mirror(k), path);
      CountAppend(removed, added, Mirror(k), path);
    }
  }

  ghost predicate MirrorsAt(f: string -> Changes, g: string -> Changes, x: string) {
    Mirrors(g(x), f(x))
  }

  lemma {:induction false} GatherMirror(xs: seq<string>, f: string -> Changes, g: string -> Changes)
    requires forall x :: x in xs ==> MirrorsAt(f, g, x)
    ensures Mirrors(T.ConcatMap(xs, g), T.ConcatMap(xs, f))
  {
    if xs != [] {
      assert MirrorsAt(f, g, xs[0]);
      GatherMirror(xs[1..], f, g);
      MirrorsAppend(g(xs[0]), T.ConcatMap(xs[1..], g), f(xs[0]), T.ConcatMap(xs[1..], f));
    }
  }

  lemma OneMirrors(a: Change, b: Change)
    requires a.kind == Mirror(b.kind) && a.path == b.path
    ensures Mirrors([a], [b])
  {
    assert [a][1..] == [] && [b][1..] == [];
  }

  lemma OneMirror(xs: seq<string>, prefix: string, k: Kind, r: Risk, q: Risk)
    ensures Mirrors(T.ConcatMap(xs, One(prefix, Mirror(k), q)), T.ConcatMap(xs, One(prefix, k, r)))
  {
    var f, g := One(prefix, k, r), One(prefix, Mirror(k), q);
    forall x | x in xs ensures MirrorsAt(f, g, x) {
      OneMirrors(Change(prefix + x, Mirror(k), q), Change(prefix + x, k, r));
    }
    GatherMirror(xs, f, g);
  }

  lemma StepMirror(path: string, b: Option<Action>, d: Option<Action>)
    ensures Mirrors(StepChange(path, d, b), StepChange(path, b, d))
  {
    if StepChange(path, b, d) != [] {
      OneMirrors(StepChange(path, d, b)[0], StepChange(path, b, d)[0]);
    }
  }

  lemma {:induction false} StepsMirror(path: string, b: seq<Action>, d: seq<Action>, n: nat)
    ensures Mirrors(StepChanges(path, d, b, n), StepChanges(path, b, d, n))
  {
    if n > 0 {
      var at, x, y := StepPath(path, n - 1), StepAt(b, n - 1), StepAt(d, n - 1);
      StepsMirror(path, b, d, n - 1);
      StepMirror(at, x, y);
      MirrorsAppend(StepChanges(path, d, b, n - 1), StepChange(at, y, x), StepChanges(path, b, d, n - 1), StepChange(at, x, y));
    }
  }

  lemma SubMirror(path: string, b: Action, d: Action)
    ensures Mirrors(SubChanges(path, d, b), SubChanges(path, b, d))
  {
    if b.Macro? && d.Macro? {
      StepsMirror(path, b.steps, d.steps, Longer(b.steps, d.steps));
    } else if SubChanges(path, b, d) != [] {
      OneMirrors(SubChanges(path, d, b)[0], SubChanges(path, b, d)[0]);
    }
  }

  lemma ChangedMirror(path: string, b: Action, d: Action)
    requires b != d
    ensures Mirrors(ControlChanges(path, Some(d), Some(b)), ControlChanges(path, Some(b), Some(d)))
  {
    var sub, other := SubChanges(path, b, d), SubChanges(path, d, b);
    var last := Change(path, ControlActionChanged, MaxRisk(RiskAction(b), RiskAction(d)));
    var mirrored := Change(path, ControlActionChanged, MaxRisk(RiskAction(d), RiskAction(b)));
    SubMirror(path, b, d);
    OneMirrors(mirrored, last);
    MirrorsAppend(other, [mirrored], sub, [last]);
  }

  lemma ControlMirror(path: string, b: Option<Action>, d: Option<Action>)
    ensures Mirrors(ControlChanges(path, d, b), ControlChanges(path, b, d))
  {
    if b.Some? && d.Some? {
      if b != d { ChangedMirror(path, b.value, d.value); }
    } else if b != d {
      OneMirrors(ControlChanges(path, d, b)[0], ControlChanges(path, b, d)[0]);
    }
  }

  lemma LayerMirror(path: string, b: Controls, d: Controls)
    ensures Mirrors(LayerChanges(path, d, b), LayerChanges(path, b, d))
  {
    var f, g := ControlsDiffer(path, b, d), ControlsDiffer(path, d, b);
    forall c ensures MirrorsAt(f, g, c) {
      ControlMirror(path + ".controls." + c, Mapped(b, c), Mapped(d, c));
    }
    assert b.Keys + d.Keys == d.Keys + b.Keys;
    GatherMirror(T.Sorted(b.Keys + d.Keys), f, g);
  }

  lemma LayersDifferMirror(prefix: string, b: ProfileConfig, d: ProfileConfig, l: string)
    ensures MirrorsAt(LayersDiffer(prefix, b, d), LayersDiffer(prefix, d, b), l)
  {
    if l in b.layers && l in d.layers { LayerMirror(prefix + l, b.layers[l].controls, d.layers[l].controls); }
  }

  lemma BothMirror(prefix: string, b: ProfileConfig, d: ProfileConfig)
    ensures b.layers.Keys * d.layers.Keys == d.layers.Keys * b.layers.Keys
    ensures var both := T.Sorted(b.layers.Keys * d.layers.Keys);
            Mirrors(T.ConcatMap(both, LayersDiffer(prefix, d, b)), T.ConcatMap(both, LayersDiffer(prefix, b, d)))
  {
    var f, g := LayersDiffer(prefix, b, d), LayersDiffer(prefix, d, b);
    forall l ensures MirrorsAt(f, g, l) { LayersDifferMirror(prefix, b, d, l); }
    GatherMirror(T.Sorted(b.layers.Keys * d.layers.Keys), f, g);
  }

  lemma ProfileMirror(path: string, b: ProfileConfig, d: ProfileConfig)
    ensures Mirrors(ProfileChanges(path, d, b), ProfileChanges(path, b, d))
  {
    var prefix := path + ".layers.";
    var onlyB, onlyD := T.Sorted(b.layers.Keys - d.layers.Keys), T.Sorted(d.layers.Keys - b.layers.Keys);
    BothMirror(prefix, b, d);
    var both := T.Sorted(b.layers.Keys * d.layers.Keys);
    OneMirror(onlyB, prefix, LayerRemoved, HIGH, MEDIUM);
    OneMirror(onlyD, prefix, LayerAdded, MEDIUM, HIGH);
    SectionsMirror(
      T.ConcatMap(onlyB, One(prefix, LayerRemoved, HIGH)), T.ConcatMap(onlyD, One(prefix, LayerAdded, MEDIUM)),
      T.ConcatMap(both, LayersDiffer(prefix, b, d)),
      T.ConcatMap(onlyD, One(prefix, LayerRemoved, HIGH)), T.ConcatMap(onlyB, One(prefix, LayerAdded, MEDIUM)),
      T.ConcatMap(both, LayersDiffer(prefix, d, b)));
  }

  lemma AllProfilesMirror(b: Profiles, d: Profiles)
    ensures Mirrors(AllProfileChanges(d, b), AllProfileChanges(b, d))
  {
    var prefix := "profiles.";
    var onlyB, onlyD, both := T.Sorted(b.Keys - d.Keys), T.Sorted(d.Keys - b.Keys), T.Sorted(b.Keys * d.Keys);
    var f, g := ProfilesDiffer(b, d), ProfilesDiffer(d, b);
    forall p ensures MirrorsAt(f, g, p) {
      if p in b && p in d { ProfileMirror("profiles." + p, b[p], d[p]); }
    }
    assert b.Keys * d.Keys == d.Keys * b.Keys;
    GatherMirror(both, f, g);
    OneMirror(onlyB, prefix, ProfileRemoved, HIGH, MEDIUM);
    OneMirror(onlyD, prefix, ProfileAdded, MEDIUM, HIGH);
    SectionsMirror(
      T.ConcatMap(onlyB, One(prefix, ProfileRemoved, HIGH)), T.ConcatMap(onlyD, One(prefix, ProfileAdded, MEDIUM)), T.ConcatMap(both, f),
      T.ConcatMap(onlyD, One(prefix, ProfileRemoved, HIGH)), T.ConcatMap(onlyB, One(prefix, ProfileAdded, MEDIUM)), T.ConcatMap(both, g));
  }

  lemma FieldMirror(path: string, k: Kind, b: string, d: string)
    requires Mirror(k) == k
    ensures Mirrors(FieldChange(path, k, d, b), FieldChange(path, k, b, d))
  {
    if b != d { OneMirrors(Change(path, k, MEDIUM), Change(path, k, MEDIUM)); }
  }

  /** Swapping the arguments mirrors the report: added for removed, mapped for unmapped, and the
      rest unchanged, at the same paths and as often. */
  lemma SwapMirrors(b: LayeredControlConfig, d: LayeredControlConfig)
    ensures Mirrors(Diff(d, b), Diff(b, d))
  {
    AllProfilesMirror(b.profiles, d.profiles);
    FieldMirror("initial_layer", InitialLayerChanged, b.initialLayer, d.initialLayer);
    FieldMirror("default_profile", DefaultProfileChanged, b.defaultProfile, d.defaultProfile);
    var initial, initial1 := FieldChange("initial_layer", InitialLayerChanged, b.initialLayer, d.initialLayer),
                             FieldChange("initial_layer", InitialLayerChanged, d.initialLayer, b.initialLayer);
    var default, default1 := FieldChange("default_profile", DefaultProfileChanged, b.defaultProfile, d.defaultProfile),
                             FieldChange("default_profile", DefaultProfileChanged, d.defaultProfile, b.defaultProfile);
    MirrorsAppend(initial1, default1, initial, default);
    MirrorsAppend(initial1 + default1, AllProfileChanges(d.profiles, b.profiles),
                  initial + default, AllProfileChanges(b.profiles, d.profiles));
  }

  // ---- What is reported, declaratively ----

  lemma {:induction false} InGather(xs: seq<string>, f: string -> Changes, ch: Change)
    ensures ch in T.ConcatMap(xs, f) <==> exists x :: x in xs && ch in f(x)
  {
    if xs != [] {
      InGather(xs[1..], f, ch);
      assert xs == [xs[0]] + xs[1..];
    }
  }

  /** HIGH exactly when an action is a command, MEDIUM exactly when none is and one sets the profile. */
  predicate RiskIs(r: Risk, actions: set<Action>) {
    && (r == HIGH <==> exists a :: a in actions && a.Command?)
    && (r == MEDIUM <==> (forall a :: a in actions ==> !a.Command?) && exists a :: a in actions && a.SetProfile?)
  }

  lemma RiskOfOne(a: Action)
    ensures forall r :: r == RiskAction(a) <==> RiskIs(r, {a})
  {
    assert a in {a};
  }

  lemma RiskOfTwo(a: Action, b: Action)
    ensures forall r :: r == MaxRisk(RiskAction(a), RiskAction(b)) <==> RiskIs(r, {a, b})
  {
    assert a in {a, b} && b in {a, b};
  }

  /** Step `i` differs, and the change says how. */
  predicate StepDue(path: string, b: seq<Action>, d: seq<Action>, i: nat, ch: Change) {
    && ch.path == StepPath(path, i)
    && match ch.kind
       case MacroStepAdded => |b| <= i < |d| && RiskIs(ch.risk, {d[i]})
       case MacroStepRemoved => |d| <= i < |b| && ch.risk == MEDIUM
       case MacroStepChanged =>
         i < |b| && i < |d| && b[i] != d[i] && RiskIs(ch.risk, {b[i], d[i]})
       case _ => false
  }

  lemma {:induction false} StepsReported(path: string, b: seq<Action>, d: seq<Action>, n: nat, ch: Change)
    ensures ch in StepChanges(path, b, d, n) <==> exists i :: 0 <= i < n && StepDue(path, b, d, i, ch)
  {
    if n > 0 {
      StepsReported(path, b, d, n - 1, ch);
      if n - 1 < |d| { RiskOfOne(d[n - 1]); }
      if n - 1 < |b| && n - 1 < |d| { RiskOfTwo(b[n - 1], d[n - 1]); }
      assert ch in StepChange(StepPath(path, n - 1), StepAt(b, n - 1), StepAt(d, n - 1)) <==> StepDue(path, b, d, n - 1, ch);
    }
  }

  /** What a control's two mappings give rise to. */
  ghost predicate ControlDue(path: string, b: Option<Action>, d: Option<Action>, ch: Change) {
    match ch.kind
    case ControlMapped => b.None? && d.Some? && ch.path == path && RiskIs(ch.risk, {d.value})
    case ControlUnmapped => b.Some? && d.None? && ch.path == path && ch.risk == MEDIUM
    case ControlActionChanged =>
      b.Some? && d.Some? && b != d && ch.path == path && RiskIs(ch.risk, {b.value, d.value})
    case RuntimeTargetChanged =>
      && b.Some? && d.Some? && b != d && ch.path == path && ch.risk == MEDIUM
      && ((b.value.SetLayer? && d.value.SetLayer?) || (b.value.SetProfile? && d.value.SetProfile?))
    case MacroStepAdded =>
      b.Some? && d.Some? && b.value.Macro? && d.value.Macro? && exists i :: StepDue(path, b.value.steps, d.value.steps, i, ch)
    case MacroStepRemoved =>
      b.Some? && d.Some? && b.value.Macro? && d.value.Macro? && exists i :: StepDue(path, b.value.steps, d.value.steps, i, ch)
    case MacroStepChanged =>
      b.Some? && d.Some? && b.value.Macro? && d.value.Macro? && exists i :: StepDue(path, b.value.steps, d.value.steps, i, ch)
    case _ => false
  }

  lemma ControlReported(path: string, b: Option<Action>, d: Option<Action>, ch: Change)
    ensures ch in ControlChanges(path, b, d) <==> ControlDue(path, b, d, ch)
  {
    if d.Some? { RiskOfOne(d.value); }
    if b.Some? && d.Some? { RiskOfTwo(b.value, d.value); }
    if b.Some? && d.Some? && b.value.Macro? && d.value.Macro? {
      StepsReported(path, b.value.steps, d.value.steps, Longer(b.value.steps, d.value.steps), ch);
    }
  }

  /** The declarative account of one report entry. */
  ghost predicate Due(b: LayeredControlConfig, d: LayeredControlConfig, ch: Change) {
    || (b.initialLayer != d.initialLayer && ch == Change("initial_layer", InitialLayerChanged, MEDIUM))
    || (b.defaultProfile != d.defaultProfile && ch == Change("default_profile", DefaultProfileChanged, MEDIUM))
    || (exists p :: p in b.profiles && p !in d.profiles && ch == Change("profiles." + p, ProfileRemoved, HIGH))
    || (exists p :: p in d.profiles && p !in b.profiles && ch == Change("profiles." + p, ProfileAdded, MEDIUM))
    || (exists p :: p in b.profiles && p in d.profiles && DueInProfile("profiles." + p, b.profiles[p], d.profiles[p], ch))
  }

  ghost predicate DueInProfile(path: string, b: ProfileConfig, d: ProfileConfig, ch: Change) {
    || (exists l :: l in b.layers && l !in d.layers && ch == Change(path + ".layers." + l, LayerRemoved, HIGH))
    || (exists l :: l in d.layers && l !in b.layers && ch == Change(path + ".layers." + l, LayerAdded, MEDIUM))
    || (exists l, c ::
          && l in b.layers && l in d.layers
          && (c in b.layers[l].controls || c in d.layers[l].controls)
          && ControlDue(path + ".layers." + l + ".controls." + c,
                        Mapped(b.layers[l].controls, c), Mapped(d.layers[l].controls, c), ch))
  }

  lemma NamesReported(names: set<string>, prefix: string, kind: Kind, risk: Risk, ch: Change)
    ensures ch in T.ConcatMap(T.Sorted(names), One(prefix, kind, risk)) <==>
              exists x :: x in names && ch == Change(prefix + x, kind, risk)
  {
    var f := One(prefix, kind, risk);
    InGather(T.Sorted(names), f, ch);
    assert forall x :: ch in f(x) <==> ch == Change(prefix + x, kind, risk);
  }

  lemma LayerReported(path: string, b: Controls, d: Controls, ch: Change)
    ensures ch in LayerChanges(path, b, d) <==>
              exists c :: (c in b || c in d) && ControlDue(path + ".controls." + c, Mapped(b, c), Mapped(d, c), ch)
  {
    var f := ControlsDiffer(path, b, d);
    InGather(T.Sorted(b.Keys + d.Keys), f, ch);
    forall c ensures ch in f(c) <==> ControlDue(path + ".controls." + c, Mapped(b, c), Mapped(d, c), ch) {
      ControlReported(path + ".controls." + c, Mapped(b, c), Mapped(d, c), ch);
    }
  }

  lemma BothLayersReported(prefix: string, b: ProfileConfig, d: ProfileConfig, ch: Change)
    ensures ch in T.ConcatMap(T.Sorted(b.layers.Keys * d.layers.Keys), LayersDiffer(prefix, b, d)) <==>
              exists l, c ::
                && l in b.layers && l in d.layers
                && (c in b.layers[l].controls || c in d.layers[l].controls)
                && ControlDue(prefix + l + ".controls." + c, Mapped(b.layers[l].controls, c), Mapped(d.layers[l].controls, c), ch)
  {
    var f, both := LayersDiffer(prefix, b, d), T.Sorted(b.layers.Keys * d.layers.Keys);
    InGather(both, f, ch);
    forall l | l in b.layers && l in d.layers
      ensures l in both
      ensures ch in f(l) <==> exists c ::
                (c in b.layers[l].controls || c in d.layers[l].controls)
                && ControlDue(prefix + l + ".controls." + c, Mapped(b.layers[l].controls, c), Mapped(d.layers[l].controls, c), ch)
    {
      assert l in b.layers.Keys * d.layers.Keys;
      LayerReported(prefix + l, b.layers[l].controls, d.layers[l].controls, ch);
    }
  }

  lemma ProfileReported(path: string, b: ProfileConfig, d: ProfileConfig, ch: Change)
    ensures ch in ProfileChanges(path, b, d) <==> DueInProfile(path, b, d, ch)
  {
    var prefix := path + ".layers.";
    NamesReported(b.layers.Keys - d.layers.Keys, prefix, LayerRemoved, HIGH, ch);
    NamesReported(d.layers.Keys - b.layers.Keys, prefix, LayerAdded, MEDIUM, ch);
    BothLayersReported(prefix, b, d, ch);
  }

  lemma BothProfilesReported(b: Profiles, d: Profiles, ch: Change)
    ensures ch in T.ConcatMap(T.Sorted(b.Keys * d.Keys), ProfilesDiffer(b, d)) <==>
              exists p :: p in b && p in d && DueInProfile("profiles." + p, b[p], d[p], ch)
  {
    var f, both := ProfilesDiffer(b, d), T.Sorted(b.Keys * d.Keys);
    InGather(both, f, ch);
    forall p | p in b && p in d
      ensures p in both && (ch in f(p) <==> DueInProfile("profiles." + p, b[p], d[p], ch))
    {
      assert p in b.Keys * d.Keys;
      ProfileReported("profiles." + p, b[p], d[p], ch);
    }
  }

  lemma AllProfilesReported(b: Profiles, d: Profiles, ch: Change)
    ensures ch in AllProfileChanges(b, d) <==>
              || (exists p :: p in b && p !in d && ch == Change("profiles." + p, ProfileRemoved, HIGH))
              || (exists p :: p in d && p !in b && ch == Change("profiles." + p, ProfileAdded, MEDIUM))
              || (exists p :: p in b && p in d && DueInProfile("profiles." + p, b[p], d[p], ch))
  {
    NamesReported(b.Keys - d.Keys, "profiles.", ProfileRemoved, HIGH, ch);
    NamesReported(d.Keys - b.Keys, "profiles.", ProfileAdded, MEDIUM, ch);
    BothProfilesReported(b, d, ch);
  }

  /** Exactly what is due is reported. */
  lemma ReportedExactly(b: LayeredControlConfig, d: LayeredControlConfig, ch: Change)
    ensures ch in Diff(b, d) <==> Due(b, d, ch)
  {
    AllProfilesReported(b.profiles, d.profiles, ch);
  }

  // ---- The loops ----

  /** The largest risk of the changes, or LOW. */
  /** HIGH exactly when some change is, MEDIUM exactly when none is HIGH and some is MEDIUM. */
  predicate IsSummary(r: Risk, cs: Changes) {
    && (r == HIGH <==> exists ch :: ch in cs && ch.risk == HIGH)
    && (r == MEDIUM <==> (forall ch :: ch in cs ==> ch.risk != HIGH) && exists ch :: ch in cs && ch.risk == MEDIUM)
  }

  method SummarizeRisk(cs: Changes) returns (r: Risk)
    ensures IsSummary(r, cs)
  {
    r := LOW;
    for i := 0 to |cs|
      invariant i == 0 ==> r == LOW
      invariant i > 0 ==> exists j :: 0 <= j < i && cs[j].risk == r
      invariant forall j :: 0 <= j < i ==> RiskOrder(cs[j].risk) <= RiskOrder(r)
    {
      r := if i == 0 then cs[i].risk else MaxRisk(r, cs[i].risk);
    }
  }

  method SubControlDiffs(path: string, b: Action, d: Action) returns (result: Changes)
    ensures result == SubChanges(path, b, d)
  {
    result := [];
    if b.Macro? && d.Macro? {
      for i := 0 to Longer(b.steps, d.steps)
        invariant result == StepChanges(path, b.steps, d.steps, i)
      {
        result := result + StepChange(StepPath(path, i), StepAt(b.steps, i), StepAt(d.steps, i));
      }
    } else if (b.SetLayer? && d.SetLayer? && b.layer != d.layer) || (b.SetProfile? && d.SetProfile? && b.profile != d.profile) {
      result := [Change(path, RuntimeTargetChanged, MEDIUM)];
    }
  }

  method DiffControls(path: string, b: Controls, d: Controls) returns (changes: Changes)
    ensures changes == LayerChanges(path, b, d)
  {
    changes := [];
    var names := T.Sorted(b.Keys + d.Keys);
    for i := 0 to |names|
      invariant changes == T.ConcatMap(names[..i], ControlsDiffer(path, b, d))
    {
      T.ConcatMapSnoc(names, ControlsDiffer(path, b, d), i);
      var at, old_, new_ := path + ".controls." + names[i], Mapped(b, names[i]), Mapped(d, names[i]);
      if old_.None? && new_.Some? {
        changes := changes + [Change(at, ControlMapped, RiskAction(new_.value))];
      } else if old_.Some? && new_.None? {
        changes := changes + [Change(at, ControlUnmapped, MEDIUM)];
      } else if old_ != new_ {
        var sub := SubControlDiffs(at, old_.value, new_.value);
        changes := changes + (sub + [Change(at, ControlActionChanged, MaxRisk(RiskAction(old_.value), RiskAction(new_.value)))]);
      }
    }
    assert names[..|names|] == names;
  }

  /** One change for each name. */
  method ReportNames(names: seq<string>, prefix: string, kind: Kind, risk: Risk) returns (changes: Changes)
    ensures changes == T.ConcatMap(names, One(prefix, kind, risk))
  {
    changes := [];
    for i := 0 to |names|
      invariant changes == T.ConcatMap(names[..i], One(prefix, kind, risk))
    {
      T.ConcatMapSnoc(names, One(prefix, kind, risk), i);
      changes := changes + [Change(prefix + names[i], kind, risk)];
    }
    assert names[..|names|] == names;
  }

  method DiffLayers(path: string, b: ProfileConfig, d: ProfileConfig) returns (changes: Changes)
    ensures changes == ProfileChanges(path, b, d)
  {
    var prefix := path + ".layers.";
    var removed := ReportNames(T.Sorted(b.layers.Keys - d.layers.Keys), prefix, LayerRemoved, HIGH);
    var added := ReportNames(T.Sorted(d.layers.Keys - b.layers.Keys), prefix, LayerAdded, MEDIUM);
    var both := T.Sorted(b.layers.Keys * d.layers.Keys);
    var changed: Changes := [];
    for i := 0 to |both|
      invariant changed == T.ConcatMap(both[..i], LayersDiffer(prefix, b, d))
    {
      T.ConcatMapSnoc(both, LayersDiffer(prefix, b, d), i);
      assert both[i] in both;
      var inLayer := DiffControls(prefix + both[i], b.layers[both[i]].controls, d.layers[both[i]].controls);
      changed := changed + inLayer;
    }
    assert both[..|both|] == both;
    return removed + added + changed;
  }

  method DiffSharedProfiles(both: seq<string>, b: Profiles, d: Profiles) returns (changes: Changes)
    requires forall p :: p in both ==> p in b && p in d
    ensures changes == T.ConcatMap(both, ProfilesDiffer(b, d))
  {
    changes := [];
    for i := 0 to |both|
      invariant changes == T.ConcatMap(both[..i], ProfilesDiffer(b, d))
    {
      T.ConcatMapSnoc(both, ProfilesDiffer(b, d), i);
      assert both[i] in both;
      var inProfile := DiffLayers("profiles." + both[i], b[both[i]], d[both[i]]);
      changes := changes + inProfile;
    }
    assert both[..|both|] == both;
  }

  method DiffProfiles(b: Profiles, d: Profiles) returns (changes: Changes)
    ensures changes == AllProfileChanges(b, d)
  {
    var removed := ReportNames(T.Sorted(b.Keys - d.Keys), "profiles.", ProfileRemoved, HIGH);
    var added := ReportNames(T.Sorted(d.Keys - b.Keys), "profiles.", ProfileAdded, MEDIUM);
    var changed := DiffSharedProfiles(T.Sorted(b.Keys * d.Keys), b, d);
    return removed + added + changed;
  }

  /** The changes of a field, put before those listed so far. */
  method InsertField(path: string, kind: Kind, b: string, d: string, rest: Changes) returns (changes: Changes)
    ensures changes == FieldChange(path, kind, b, d) + rest
  {
    changes := rest;
    if b != d { changes := [Change(path, kind, MEDIUM)] + changes; }
  }

  /** `diff_configs`: the two field changes are inserted at the front last. */
  method ListChanges(b: LayeredControlConfig, d: LayeredControlConfig) returns (changes: Changes)
    ensures changes == Diff(b, d)
  {
    var profiles := DiffProfiles(b.profiles, d.profiles);
    changes := InsertField("default_profile", DefaultProfileChanged, b.defaultProfile, d.defaultProfile, profiles);
    changes := InsertField("initial_layer", InitialLayerChanged, b.initialLayer, d.initialLayer, changes);
    T.ConcatAssoc(
      FieldChange("initial_layer", InitialLayerChanged, b.initialLayer, d.initialLayer),
      FieldChange("default_profile", DefaultProfileChanged, b.defaultProfile, d.defaultProfile), profiles);
  }

  method DiffConfigs(b: LayeredControlConfig, d: LayeredControlConfig) returns (changes: Changes, risk: Risk)
    ensures changes == Diff(b, d) && IsSummary(risk, changes)
    ensures changes == [] <==> SameMaps(b, d)
  {
    changes := ListChanges(b, d);
    EmptyExactlyWhenSame(b, d);
    risk := SummarizeRisk(changes);
  }
}
