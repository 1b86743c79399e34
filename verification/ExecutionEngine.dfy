/** The execution engine (`execution/engine.py`): running a plan's steps against the backends, and
    the proof that running a flattened macro is running the macro. */
module ExecutionEngine {
  import opened Wrappers
  import opened ControlModel
  import opened ActionResolver
  import opened RuntimeContext

  // ---- Running one leaf ----

  datatype Status = SUCCESS | FAILED | TIMED_OUT | CANCELLED | SKIPPED | BACKEND_UNAVAILABLE

  /** What a backend answers: success, or one of the errors the engine tells apart. */
  datatype Response =
    | Done | Unavailable | DesktopError | CommandRejected | CommandTimedOut | NonZeroExit
    | ExecutionCancelled | UnexpectedError

  /** The backends: the answer to the latest of a history of attempted steps. */
  type Backends = seq<Action> -> Response

  /** What running a plan changes: the context, and the history of attempted steps. */
  datatype World = World(context: Context, attempts: seq<Action>)

  function StatusOf(r: Response): Status {
    match r
    case Done => SUCCESS
    case Unavailable => BACKEND_UNAVAILABLE
    case CommandTimedOut => TIMED_OUT
    case ExecutionCancelled => CANCELLED
    case _ => FAILED
  }

  function Settle(w: World, changed: Option<Context>): (World, Status) {
    if changed.Some? then (w.(context := changed.value), SUCCESS) else (w, FAILED)
  }

  /** One step: control steps act on the context, a macro or a no-op does nothing, and every other
      step is answered by the backends. */
  function RunLeaf(env: Backends, w: World, a: Action): (World, Status) {
    var w1 := w.(attempts := w.attempts + [a]);
    match a
    case SetLayer(layer) => Settle(w1, SetLayerTo(w.context, layer, ControlAction))
    case NextLayer => Settle(w1, Some(NextLayerOf(w.context, ControlAction)))
    case PreviousLayer => Settle(w1, Some(PreviousLayerOf(w.context, ControlAction)))
    case SetProfile(profile) => Settle(w1, SetProfileTo(w.context, profile, ControlAction))
    case NoOp => (w1, SUCCESS)
    case Macro(_) => (w1, SUCCESS)
    case _ => (w1, StatusOf(env(w1.attempts)))
  }

  // ---- What a leaf does, said of the context and the answer ----

  predicate Reports(r: Response, status: Status) {
    && (status == SUCCESS <==> r.Done?) && (status == BACKEND_UNAVAILABLE <==> r.Unavailable?)
    && (status == TIMED_OUT <==> r.CommandTimedOut?) && (status == CANCELLED <==> r.ExecutionCancelled?)
    && (status == FAILED <==> r in {DesktopError, CommandRejected, NonZeroExit, UnexpectedError})
  }

  /** Every step is attempted once. A control step lands where it says, a name that is none fails; the
      other steps leave the context alone, and are answered by the backends unless they do nothing. */
  ghost predicate LeafDoes(env: Backends, w: World, a: Action, w1: World, status: Status) {
    var c, c1 := w.context, w1.context;
    && w1.attempts == w.attempts + [a]
    && match a
       case SetLayer(layer) =>
         if IsLayerId(layer) then status == SUCCESS && LandsAt(c, c1, c.profile, layer, ControlAction)
         else status == FAILED && c1 == c
       case SetProfile(profile) =>
         if c.config.None? then status == SUCCESS && c1 == c
         else if IsProfileId(profile) && profile in c.config.value.profiles then
           status == SUCCESS && LandsAt(c, c1, profile, c.config.value.initialLayer, ControlAction)
         else status == FAILED && c1 == c
       case NextLayer =>
         && status == SUCCESS
         && if c.config.None? then c1 == c
            else LandsAt(c, c1, c.profile, c1.layer, ControlAction) && IsSuccessor(c, Anchor(c), c1.layer)
       case PreviousLayer =>
         && status == SUCCESS
         && if c.config.None? then c1 == c
            else LandsAt(c, c1, c.profile, c1.layer, ControlAction) && IsAvailable(c, c1.layer) && IsSuccessor(c, c1.layer, Anchor(c))
       case NoOp => status == SUCCESS && c1 == c
       case Macro(_) => status == SUCCESS && c1 == c
       case _ => c1 == c && Reports(env(w1.attempts), status)
  }

  lemma RunLeafDoes(env: Backends, w: World, a: Action)
    ensures LeafDoes(env, w, a, RunLeaf(env, w, a).0, RunLeaf(env, w, a).1)
  {
    match a {
      case SetLayer(layer) => SettingLands(w.context, layer, ControlAction);
      case SetProfile(profile) => SettingLands(w.context, profile, ControlAction);
      case NextLayer => if w.context.config.Some? { CyclingLands(w.context, ControlAction); }
      case PreviousLayer => if w.context.config.Some? { CyclingLands(w.context, ControlAction); }
      case _ =>
    }
  }

  // ---- Running a plan ----

  datatype Execution = Execution(world: World, status: Status, completed: nat)

  /** Steps in order, stopping at the first that does not succeed. */
  function RunSteps(env: Backends, w: World, steps: seq<Action>): (r: Execution)
    ensures r.completed <= |steps|
    ensures r.status == SUCCESS <==> r.completed == |steps|
    ensures r.status != SKIPPED
    decreases |steps|
  {
    if steps == [] then Execution(w, SUCCESS, 0)
    else
      var (w1, status) := RunLeaf(env, w, steps[0]);
      if status != SUCCESS then Execution(w1, status, 0)
      else
        var rest := RunSteps(env, w1, steps[1..]);
        rest.(completed := rest.completed + 1)
  }

  lemma {:induction false} RunStepsSplit(env: Backends, w: World, xs: seq<Action>, ys: seq<Action>)
    ensures var first := RunSteps(env, w, xs);
            var both := RunSteps(env, w, xs + ys);
            if first.status != SUCCESS then both == first
            else
              var second := RunSteps(env, first.world, ys);
              both == second.(completed := |xs| + second.completed)
    decreases |xs|
  {
    if xs == [] {
      assert xs + ys == ys;
    } else {
      var (w1, status) := RunLeaf(env, w, xs[0]);
      assert (xs + ys)[1..] == xs[1..] + ys;
      if status == SUCCESS { RunStepsSplit(env, w1, xs[1..], ys); }
    }
  }

  lemma RunStepsSnoc(env: Backends, w: World, steps: seq<Action>, n: nat)
    requires n < |steps|
    ensures var before := RunSteps(env, w, steps[..n]);
            var after := RunSteps(env, w, steps[..n + 1]);
            if before.status != SUCCESS then after == before
            else
              var (w1, status) := RunLeaf(env, before.world, steps[n]);
              after == Execution(w1, status, if status == SUCCESS then n + 1 else n)
  {
    RunStepsSplit(env, w, steps[..n], [steps[n]]);
    assert steps[..n + 1] == steps[..n] + [steps[n]];
    assert [steps[n]][1..] == [];
  }

  /** The engine. The runtime backend is the context manager. */
  class ActionExecutionEngine {
    const context: RuntimeContextManager
    var attempts: seq<Action>

    constructor (context: RuntimeContextManager)
      ensures this.context == context && attempts == []
    {
      this.context := context;
      attempts := [];
    }

    function Abstract(): World
      reads this, context
    {
      World(context.Abstract(), attempts)
    }

    /** The body of the loop's `try`. */
    method RunStep(env: Backends, step: Action) returns (status: Status)
      modifies this, context
      ensures (Abstract(), status) == RunLeaf(env, old(Abstract()), step)
      ensures LeafDoes(env, old(Abstract()), step, Abstract(), status)
    {
      RunLeafDoes(env, Abstract(), step);
      attempts := attempts + [step];
      match step
      case SetLayer(layer) =>
        var changed := context.SetLayer(layer, ControlAction);
        status := if changed.Some? then SUCCESS else FAILED;
      case NextLayer =>
        var _ := context.NextLayer(ControlAction);
        status := SUCCESS;
      case PreviousLayer =>
        var _ := context.PreviousLayer(ControlAction);
        status := SUCCESS;
      case SetProfile(profile) =>
        var changed := context.SetProfile(profile, ControlAction);
        status := if changed.Some? then SUCCESS else FAILED;
      case NoOp => status := SUCCESS;
      case Macro(_) => status := SUCCESS;
      case _ => status := StatusOf(env(attempts));
    }

    /** `execute`: the results are successes, then at most one other status, then only skips; the
        completed count is the number of successes; and the world is that of running the steps. */
    method Execute(env: Backends, plan: Plan) returns (status: Status, completed: nat, results: seq<Status>)
      modifies this, context
      ensures |results| == |plan.steps| && completed <= |plan.steps|
      ensures forall i :: 0 <= i < |results| ==> (i < completed <==> results[i] == SUCCESS)
      ensures forall i :: completed < i < |results| ==> results[i] == SKIPPED
      ensures !plan.configured ==>
                status == SKIPPED && completed == 0 && Abstract() == old(Abstract())
                && forall i :: 0 <= i < |results| ==> results[i] == SKIPPED
      ensures plan.configured ==>
                && Execution(Abstract(), status, completed) == RunSteps(env, old(Abstract()), plan.steps)
                && (completed < |plan.steps| ==> results[completed] == status)
    {
      status := if plan.configured then SUCCESS else SKIPPED;
      completed, results := 0, [];
      var steps := plan.steps;
      for i := 0 to |steps|
        invariant |results| == i && completed <= i
        invariant forall k :: 0 <= k < i ==> (k < completed <==> results[k] == SUCCESS)
        invariant forall k :: completed < k < i ==> results[k] == SKIPPED
        invariant !plan.configured ==>
                    status == SKIPPED && completed == 0 && Abstract() == old(Abstract())
                    && forall k :: 0 <= k < i ==> results[k] == SKIPPED
        invariant plan.configured ==> Execution(Abstract(), status, completed) == RunSteps(env, old(Abstract()), steps[..i])
        invariant plan.configured && completed < i ==> results[completed] == status
      {
        RunStepsSnoc(env, old(Abstract()), steps, i);
        if status != SUCCESS {
          results := results + [SKIPPED];
        } else {
          var stepStatus := RunStep(env, steps[i]);
          status := stepStatus;
          results := results + [stepStatus];
          if stepStatus == SUCCESS {
            completed := completed + 1;
          }
        }
      }
      assert steps[..|steps|] == steps;
    }
  }

  // ---- Flattening preserves meaning ----

  /** The meaning of an action tree: a macro runs its steps in order and stops at the first that
      does not succeed; a leaf runs itself. */
  function Interpret(env: Backends, w: World, a: Action): (World, Status)
    decreases a, 1
  {
    if a.Macro? then InterpretSteps(env, w, a.steps) else RunLeaf(env, w, a)
  }

  function InterpretSteps(env: Backends, w: World, steps: seq<Action>): (World, Status)
    decreases steps, 0
  {
    if steps == [] then (w, SUCCESS)
    else
      var (w1, status) := Interpret(env, w, steps[0]);
      if status != SUCCESS then (w1, status) else InterpretSteps(env, w1, steps[1..])
  }

  /** Running the leaves of a tree is interpreting the tree: the same attempts in the same order,
      the same context and the same status, for any backends. */
  lemma {:induction false} FlatteningPreservesMeaning(env: Backends, w: World, a: Action)
    ensures var flat := RunSteps(env, w, Leaves(a));
            Interpret(env, w, a) == (flat.world, flat.status)
    decreases a, 1
  {
    if a.Macro? {
      FlatteningStepsPreservesMeaning(env, w, a.steps);
    } else {
      assert Leaves(a)[1..] == [];
    }
  }

  lemma {:induction false} FlatteningStepsPreservesMeaning(env: Backends, w: World, steps: seq<Action>)
    ensures var flat := RunSteps(env, w, LeavesOf(steps));
            InterpretSteps(env, w, steps) == (flat.world, flat.status)
    decreases steps, 0
  {
    if steps != [] {
      FlatteningPreservesMeaning(env, w, steps[0]);
      RunStepsSplit(env, w, Leaves(steps[0]), LeavesOf(steps[1..]));
      var (w1, status) := Interpret(env, w, steps[0]);
      if status == SUCCESS { FlatteningStepsPreservesMeaning(env, w1, steps[1..]); }
    }
  }
}
