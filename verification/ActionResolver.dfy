/** Resolving an event to a plan (`control/actions.py`): looking a control up in the active layer
    over the general one, and flattening macros under a depth and a step limit. */
module ActionResolver {
  import opened Wrappers
  import opened ControlModel
  import opened Toml
  import opened ActionSpec

  datatype Limits = Limits(maxDepth: int, maxSteps: int)

  const DEFAULT_LIMITS := Limits(10, 100)

  // ---- Action trees ----

  /** The leaves of an action, in order. */
  function Leaves(a: Action): seq<Action>
    decreases a, 1
  {
    if a.Macro? then LeavesOf(a.steps) else [a]
  }

  function LeavesOf(steps: seq<Action>): seq<Action>
    decreases steps, 0
  {
    if steps == [] then [] else Leaves(steps[0]) + LeavesOf(steps[1..])
  }

  /** The depth of the deepest node below the root. */
  function Height(a: Action): nat
    decreases a, 1
  {
    if a.Macro? && a.steps != [] then 1 + HeightOf(a.steps) else 0
  }

  function HeightOf(steps: seq<Action>): nat
    decreases steps, 0
  {
    if steps == [] then 0
    else
      var first, rest := Height(steps[0]), HeightOf(steps[1..]);
      if first >= rest then first else rest
  }

  /** Every node is within the depth limit and a macro with steps has at most `maxSteps` leaves. */
  predicate Fits(limits: Limits, a: Action, depth: nat) {
    depth + Height(a) <= limits.maxDepth && (a.Macro? && a.steps != [] ==> |Leaves(a)| <= limits.maxSteps)
  }

  /** The tree has a node this far below its root. */
  predicate HasNodeAt(a: Action, n: nat)
    decreases a
  {
    n == 0 || (a.Macro? && exists i :: 0 <= i < |a.steps| && HasNodeAt(a.steps[i], n - 1))
  }

  lemma {:induction false} HeightOfStep(steps: seq<Action>, i: nat)
    requires i < |steps|
    ensures Height(steps[i]) <= HeightOf(steps)
    decreases i
  {
    if i > 0 { HeightOfStep(steps[1..], i - 1); }
  }

  lemma {:induction false} HighestStep(steps: seq<Action>) returns (i: nat)
    requires steps != []
    ensures i < |steps| && Height(steps[i]) == HeightOf(steps)
  {
    i := 0;
    if |steps| > 1 {
      var j := HighestStep(steps[1..]);
      if Height(steps[0]) < HeightOf(steps[1..]) { i := j + 1; }
    }
  }

  /** The height is the depth of the deepest node. */
  lemma {:induction false} NodesToHeight(a: Action, n: nat)
    ensures HasNodeAt(a, n) <==> n <= Height(a)
    decreases a
  {
    if n > 0 && a.Macro? && a.steps != [] {
      forall i | 0 <= i < |a.steps|
        ensures Height(a.steps[i]) <= HeightOf(a.steps)
        ensures HasNodeAt(a.steps[i], n - 1) <==> n - 1 <= Height(a.steps[i])
      {
        NodesToHeight(a.steps[i], n - 1);
        HeightOfStep(a.steps, i);
      }
      var i := HighestStep(a.steps);
      assert n <= Height(a) ==> HasNodeAt(a.steps[i], n - 1);
    }
  }

  /** Within the limits: no node is too deep, and a macro with steps has not too many leaves. */
  lemma FitsExactly(limits: Limits, a: Action)
    ensures Fits(limits, a, 0)
       <==> && (forall n: nat :: HasNodeAt(a, n) ==> n <= limits.maxDepth)
            && (a.Macro? && a.steps != [] ==> |Leaves(a)| <= limits.maxSteps)
  {
    forall n: nat ensures HasNodeAt(a, n) <==> n <= Height(a) { NodesToHeight(a, n); }
    assert HasNodeAt(a, Height(a));
  }

  lemma {:induction false} LeavesSplit(xs: seq<Action>, ys: seq<Action>)
    ensures LeavesOf(xs + ys) == LeavesOf(xs) + LeavesOf(ys)
    ensures HeightOf(xs + ys) == if HeightOf(xs) >= HeightOf(ys) then HeightOf(xs) else HeightOf(ys)
  {
    if xs == [] {
      assert xs + ys == ys;
    } else {
      LeavesSplit(xs[1..], ys);
      assert (xs + ys)[1..] == xs[1..] + ys && (xs + ys)[0] == xs[0];
      assert LeavesOf(xs + ys) == Leaves(xs[0]) + LeavesOf(xs[1..] + ys);
    }
  }

  lemma LeavesSnoc(steps: seq<Action>, n: nat)
    requires n < |steps|
    ensures LeavesOf(steps[..n + 1]) == LeavesOf(steps[..n]) + Leaves(steps[n])
    ensures HeightOf(steps[..n + 1])
         == if HeightOf(steps[..n]) >= Height(steps[n]) then HeightOf(steps[..n]) else Height(steps[n])
  {
    LeavesSplit(steps[..n], [steps[n]]);
    assert steps[..n + 1] == steps[..n] + [steps[n]];
    assert [steps[n]][1..] == [];
  }

  lemma LeavesPrefix(steps: seq<Action>, n: nat)
    requires n <= |steps|
    ensures |LeavesOf(steps[..n])| <= |LeavesOf(steps)| && HeightOf(steps[..n]) <= HeightOf(steps)
  {
    LeavesSplit(steps[..n], steps[n..]);
    assert steps == steps[..n] + steps[n..];
  }

  lemma {:induction false} LeavesAreNoMacros(a: Action)
    ensures forall l :: l in Leaves(a) ==> !l.Macro?
    decreases a, 1
  {
    if a.Macro? { LeavesOfAreNoMacros(a.steps); }
  }

  lemma {:induction false} LeavesOfAreNoMacros(steps: seq<Action>)
    ensures forall l :: l in LeavesOf(steps) ==> !l.Macro?
    decreases steps, 0
  {
    if steps != [] {
      LeavesAreNoMacros(steps[0]);
      LeavesOfAreNoMacros(steps[1..]);
    }
  }

  // ---- Flattening ----

  /** `_flatten_action`: succeeds exactly when the tree is within the limits, and then returns its
      leaves in order, none of them a macro. */
  method FlattenAction(limits: Limits, action: Action, depth: nat) returns (r: Option<seq<Action>>)
    ensures r == if Fits(limits, action, depth) then Some(Leaves(action)) else None
    ensures r.Some? ==> forall l :: l in r.value ==> !l.Macro?
    decreases action
  {
    LeavesAreNoMacros(action);
    if depth > limits.maxDepth { return None; }
    if !action.Macro? { return Some([action]); }
    var steps := action.steps;
    var flat := [];
    for i := 0 to |steps|
      invariant flat == LeavesOf(steps[..i])
      invariant i > 0 ==> depth + 1 + HeightOf(steps[..i]) <= limits.maxDepth && |flat| <= limits.maxSteps
    {
      var inner := FlattenAction(limits, steps[i], depth + 1);
      LeavesSnoc(steps, i);
      LeavesPrefix(steps, i + 1);
      if inner.None? { return None; }
      flat := flat + inner.value;
      if |flat| > limits.maxSteps { return None; }
    }
    assert steps[..|steps|] == steps;
    r := Some(flat);
  }

  /** An action that a spec can denote never exceeds the default depth limit. */
  lemma {:induction false} SpecActionDepth(a: Action, depth: nat)
    requires SpecAction(a, depth) && depth <= MAX_SPEC_DEPTH
    ensures depth + Height(a) <= DEFAULT_LIMITS.maxDepth
    decreases a, 1
  {
    if a.Macro? { SpecStepsDepth(a.steps, depth + 1); }
  }

  lemma {:induction false} SpecStepsDepth(steps: seq<Action>, depth: nat)
    requires depth <= MAX_SPEC_DEPTH && forall s :: s in steps ==> SpecAction(s, depth)
    ensures depth + HeightOf(steps) <= DEFAULT_LIMITS.maxDepth
    decreases steps, 0
  {
    if steps != [] {
      SpecActionDepth(steps[0], depth);
      SpecStepsDepth(steps[1..], depth);
    }
  }

  /** Whatever spec is accepted, its action flattens under the default limits unless it has more
      than a hundred leaves. */
  lemma AcceptedSpecFits(v: Value)
    requires ParseSpec(v, 0).Some?
    ensures var a := ParseSpec(v, 0).value;
            Fits(DEFAULT_LIMITS, a, 0) <==> |Leaves(a)| <= 100
  {
    ParseSpecSound(v, 0);
    SpecActionDepth(ParseSpec(v, 0).value, 0);
  }

  // ---- Resolving ----

  datatype Plan = Plan(control: string, configured: bool, steps: seq<Action>, source: string)

  datatype Resolution = Resolved(plan: Plan) | UnknownProfile | LimitExceeded

  function ControlsAt(prof: ProfileConfig, layer: string): map<string, Action> {
    if layer in prof.layers then prof.layers[layer].controls else map[]
  }

  /** The effective controls: the active layer over the general one. */
  function Overlay(prof: ProfileConfig, layer: string): map<string, Action> {
    ControlsAt(prof, GENERAL) + ControlsAt(prof, layer)
  }

  function Unmapped(control: string): Plan { Plan(control, false, [], "unmapped") }

  /** What resolution means: presses only, through the overlay, within the limits. */
  function ResolveEvent(cfg: LayeredControlConfig, limits: Limits, e: OfficialControlEvent, profile: string, layer: string): Resolution {
    if e.phase != Down then Resolved(Unmapped(e.control))
    else if profile !in cfg.profiles then UnknownProfile
    else
      var prof := cfg.profiles[profile];
      if e.control !in Overlay(prof, layer) then Resolved(Unmapped(e.control))
      else
        var a := Overlay(prof, layer)[e.control];
        if !Fits(limits, a, 0) then LimitExceeded
        else Resolved(Plan(e.control, true, Leaves(a),
                           if e.control in ControlsAt(prof, layer) then "active_layer" else "general_fallback"))
  }

  /** The layer of the profile maps the control. */
  predicate Maps(prof: ProfileConfig, layer: string, control: string) {
    layer in prof.layers && control in prof.layers[layer].controls
  }

  /** A press runs the active layer's own entry if there is one, the general layer's if only that one
      has one, and otherwise nothing; the entry is flattened if it is within the limits. */
  ghost predicate ActiveFirst(prof: ProfileConfig, limits: Limits, layer: string, control: string, r: Resolution) {
    if Maps(prof, layer, control) then
      RunsEntry(limits, prof.layers[layer].controls[control], control, "active_layer", r)
    else if Maps(prof, GENERAL, control) then
      RunsEntry(limits, prof.layers[GENERAL].controls[control], control, "general_fallback", r)
    else
      r.Resolved? && r.plan.control == control && !r.plan.configured && r.plan.steps == [] && r.plan.source == "unmapped"
  }

  ghost predicate RunsEntry(limits: Limits, a: Action, control: string, source: string, r: Resolution) {
    if Fits(limits, a, 0) then r == Resolved(Plan(control, true, Leaves(a), source)) else r.LimitExceeded?
  }

  lemma PressRunsActiveFirst(cfg: LayeredControlConfig, limits: Limits, e: OfficialControlEvent, profile: string, layer: string)
    requires e.phase == Down && profile in cfg.profiles
    ensures ActiveFirst(cfg.profiles[profile], limits, layer, e.control, ResolveEvent(cfg, limits, e, profile, layer))
  {
  }

  /** `LayeredActionResolver.resolve`: look in the active layer, then fall back to the general one
      unless that was the active one, then flatten. */
  method Resolve(cfg: LayeredControlConfig, limits: Limits, e: OfficialControlEvent, profile: string, layer: string)
    returns (r: Resolution)
    ensures r == ResolveEvent(cfg, limits, e, profile, layer)
    ensures e.phase == Down && profile in cfg.profiles ==> ActiveFirst(cfg.profiles[profile], limits, layer, e.control, r)
    ensures e.phase == Down && profile !in cfg.profiles ==> r.UnknownProfile?
    ensures e.phase != Down ==> r.Resolved? && !r.plan.configured && r.plan.steps == []
  {
    if e.phase != Down { return Resolved(Unmapped(e.control)); }
    if profile !in cfg.profiles { return UnknownProfile; }
    var prof := cfg.profiles[profile];
    var action := None;
    var source := "unmapped";
    if layer in prof.layers && e.control in prof.layers[layer].controls {
      action := Some(prof.layers[layer].controls[e.control]);
      source := "active_layer";
    }
    if action.None? && layer != GENERAL {
      if GENERAL in prof.layers && e.control in prof.layers[GENERAL].controls {
        action := Some(prof.layers[GENERAL].controls[e.control]);
        source := "general_fallback";
      }
    }
    if action.None? { return Resolved(Unmapped(e.control)); }
    var flat := FlattenAction(limits, action.value, 0);
    if flat.None? { return LimitExceeded; }
    return Resolved(Plan(e.control, true, flat.value, source));
  }
}
