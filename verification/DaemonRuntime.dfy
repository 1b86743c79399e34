/** The executor as a whole (`daemon/runtime.py`): what one turn of it does, the proof that turns
    refine a pure interpreter of events, and the runtime class whose methods perform the steps. */
module DaemonRuntime {
  import opened Wrappers
  import opened ControlModel
  import opened ConfigParser
  import opened ActionResolver
  import opened RuntimeContext
  import opened ExecutionEngine
  import opened EventQueue
  import opened DaemonSteps

  // ---- One uninterrupted turn of the executor ----

  /** Take the next event, run its whole plan, and count the outcome. */
  function Turn(env: Backends, d: Daemon): Daemon {
    var d1 := Taking(d);
    if d.flight != Idle || !d1.flight.Busy? then d1
    else
      var r := RunSteps(env, d1.world, d1.flight.todo);
      Finishing(d1.(world := r.world, flight := d1.flight.(status := r.status, todo := [])))
  }

  /** The steps of the system that make up a turn. */
  function TurnOps(n: nat): seq<Op> { [Take] + seq(n, i => StepOnce) + [Finish] }

  lemma {:induction false} RunSplit(env: Backends, d: Daemon, xs: seq<Op>, ys: seq<Op>)
    ensures Run(env, d, xs + ys) == Run(env, Run(env, d, xs), ys)
    decreases |ys|
  {
    if ys == [] {
      assert xs + ys == xs;
    } else {
      RunSplit(env, d, xs, ys[..|ys| - 1]);
      assert (xs + ys)[..|xs + ys| - 1] == xs + ys[..|ys| - 1];
    }
  }

  lemma RunOne(env: Backends, d: Daemon, op: Op)
    ensures Run(env, d, [op]) == Apply(env, d, op)
  {
    assert [op][..0] == [];
  }

  /** Running a plan step by step ends where running its steps does. */
  lemma {:induction false} StepsRunPlan(env: Backends, d: Daemon, n: nat)
    requires d.flight.Busy? && d.flight.status == SUCCESS && n >= |d.flight.todo|
    ensures var r := RunSteps(env, d.world, d.flight.todo);
            var d1 := Run(env, d, seq(n, i => StepOnce));
            && d1.flight.Busy? && d1.flight.status == r.status
            && (r.status == SUCCESS ==> d1.flight.todo == [])
            && d1 == d.(world := r.world, flight := d1.flight) && d1.flight.event == d.flight.event
    decreases n
  {
    var ops: seq<Op> := seq(n, i => StepOnce);
    if n > 0 {
      assert ops == [StepOnce] + seq(n - 1, i => StepOnce);
      RunSplit(env, d, [StepOnce], seq(n - 1, i => StepOnce));
      RunOne(env, d, StepOnce);
      var d1 := Stepping(env, d);
      if d1.flight.status == SUCCESS {
        StepsRunPlan(env, d1, n - 1);
      } else {
        StuckSteps(env, d1, n - 1);
      }
    }
  }

  lemma {:induction false} StuckSteps(env: Backends, d: Daemon, n: nat)
    requires d.flight.Busy? && d.flight.status != SUCCESS
    ensures Run(env, d, seq(n, i => StepOnce)) == d
  {
    if n > 0 {
      var ops: seq<Op> := seq(n, i => StepOnce);
      assert ops[..n - 1] == seq(n - 1, i => StepOnce);
      StuckSteps(env, d, n - 1);
    }
  }

  /** A turn that does not start a plan is the taking step alone. */
  function TurnSteps(d: Daemon): seq<Op> {
    if d.flight == Idle && Taking(d).flight.Busy? then TurnOps(|Taking(d).flight.todo|) else [Take]
  }

  /** A turn is a run of the step system without interruption. */
  lemma TurnIsRun(env: Backends, d: Daemon)
    ensures Turn(env, d) == Run(env, d, TurnSteps(d))
  {
    if d.flight == Idle && Taking(d).flight.Busy? {
      PlanTurnIsRun(env, d);
    } else {
      RunOne(env, d, Take);
    }
  }

  lemma PlanTurnIsRun(env: Backends, d: Daemon)
    requires d.flight == Idle && Taking(d).flight.Busy?
    ensures Turn(env, d) == Run(env, d, TurnOps(|Taking(d).flight.todo|))
  {
    var d1 := Taking(d);
    var n := |d1.flight.todo|;
    var steps: seq<Op> := seq(n, i => StepOnce);
    RunSplit(env, d, [Take] + steps, [Finish]);
    RunSplit(env, d, [Take], steps);
    RunOne(env, d, Take);
    StepsRunPlan(env, d1, n);
    RunOne(env, Run(env, d1, steps), Finish);
  }

  // ---- The pure interpreter of events ----

  /** What an event means: nothing unless it is a press of a control mapped in the overlay of the
      active layer over the general one by a tree within the limits; otherwise that tree. */
  function EventMeaning(env: Backends, cfg: LayeredControlConfig, w: World, e: OfficialControlEvent): World {
    var c := w.context;
    if e.phase != Down || c.profile !in cfg.profiles || e.control !in Overlay(cfg.profiles[c.profile], c.layer) then w
    else
      var a := Overlay(cfg.profiles[c.profile], c.layer)[e.control];
      if Fits(DEFAULT_LIMITS, a, 0) then Interpret(env, w, a).0 else w
  }

  lemma TurnMeansEvent(env: Backends, d: Daemon)
    requires d.flight == Idle && d.queue != []
    ensures var d1 := Turn(env, d);
            && d1.world == EventMeaning(env, d.config, d.world, d.queue[0])
            && d1.queue == d.queue[1..] && d1.flight == Idle
            && d1.config == d.config && d1.capacity == d.capacity
  {
    var e, c := d.queue[0], d.world.context;
    if e.phase == Down && c.profile in d.config.profiles && e.control in Overlay(d.config.profiles[c.profile], c.layer) {
      FlatteningPreservesMeaning(env, d.world, Overlay(d.config.profiles[c.profile], c.layer)[e.control]);
    }
  }

  /** How an event counts: not mapped, not runnable, or by the status of its tree. */
  function CountedAs(env: Backends, cfg: LayeredControlConfig, w: World, e: OfficialControlEvent, n: Tallies): Tallies {
    var c := w.context;
    if e.phase == Down && c.profile !in cfg.profiles then n.(failed := n.failed + 1)
    else if e.phase != Down || e.control !in Overlay(cfg.profiles[c.profile], c.layer) then
      n.(resolved := n.resolved + 1, unmapped := n.unmapped + 1)
    else
      var a := Overlay(cfg.profiles[c.profile], c.layer)[e.control];
      if !Fits(DEFAULT_LIMITS, a, 0) then n.(failed := n.failed + 1)
      else if Interpret(env, w, a).1 == SUCCESS then
        n.(resolved := n.resolved + 1, executed := n.executed + 1, succeeded := n.succeeded + 1)
      else n.(resolved := n.resolved + 1, executed := n.executed + 1, failed := n.failed + 1)
  }

  /** A turn counts its event by what the interpreter makes of it. */
  lemma TurnCountsEvent(env: Backends, d: Daemon)
    requires d.flight == Idle && d.queue != []
    ensures Turn(env, d).tallies == CountedAs(env, d.config, d.world, d.queue[0], d.tallies)
  {
    var e, c := d.queue[0], d.world.context;
    if e.phase == Down && c.profile in d.config.profiles && e.control in Overlay(d.config.profiles[c.profile], c.layer) {
      FlatteningPreservesMeaning(env, d.world, Overlay(d.config.profiles[c.profile], c.layer)[e.control]);
    }
  }

  /** What running an entry means, and how it counts. */
  ghost predicate RunsTree(env: Backends, w: World, a: Action, n: Tallies, w1: World, n1: Tallies) {
    if !Fits(DEFAULT_LIMITS, a, 0) then w1 == w && n1 == n.(failed := n.failed + 1)
    else
      var (interpreted, status) := Interpret(env, w, a);
      && w1 == interpreted && n1.resolved == n.resolved + 1 && n1.executed == n.executed + 1
      && n1.succeeded == n.succeeded + (if status == SUCCESS then 1 else 0)
      && n1.failed == n.failed + (if status == SUCCESS then 0 else 1)
      && n1.unmapped == n.unmapped
  }

  /** An event's meaning and count, off the configuration: a press of a control runs the entry of the
      active layer, or else of the general one, or else counts as unmapped; so does a release; and
      without its profile a press fails. */
  lemma EventRunsActiveFirst(env: Backends, cfg: LayeredControlConfig, w: World, e: OfficialControlEvent, n: Tallies)
    ensures var w1, n1 := EventMeaning(env, cfg, w, e), CountedAs(env, cfg, w, e, n);
            var p, l := w.context.profile, w.context.layer;
            if e.phase == Down && p !in cfg.profiles then w1 == w && n1 == n.(failed := n.failed + 1)
            else if e.phase == Down && Maps(cfg.profiles[p], l, e.control) then
              RunsTree(env, w, cfg.profiles[p].layers[l].controls[e.control], n, w1, n1)
            else if e.phase == Down && Maps(cfg.profiles[p], GENERAL, e.control) then
              RunsTree(env, w, cfg.profiles[p].layers[GENERAL].controls[e.control], n, w1, n1)
            else w1 == w && n1 == n.(resolved := n.resolved + 1, unmapped := n.unmapped + 1)
  {
  }

  /** The interpreter's state: no plans, no counters. */
  datatype Pure = Pure(config: LayeredControlConfig, world: World, waiting: Events, capacity: nat)

  /** Steps between which the executor is not interrupted: `Take` stands for a whole turn. */
  predicate IsCoarse(op: Op) {
    op.Receive? || op.Take? || op.Reload? || op.CliSetLayer? || op.CliNextLayer? || op.CliPreviousLayer? || op.CliSetProfile?
  }

  function Interpretation(env: Backends, p: Pure, op: Op): Pure
    requires IsCoarse(op)
  {
    var c := p.world.context;
    match op
    case Receive(e) => if |p.waiting| < p.capacity then p.(waiting := p.waiting + [e]) else p
    case Take =>
      if p.waiting == [] then p
      else p.(world := EventMeaning(env, p.config, p.world, p.waiting[0]), waiting := p.waiting[1..])
    case Reload(text) =>
      var cfg := if text.Some? then Load(text.value) else None;
      if cfg.None? then p else p.(config := cfg.value, world := p.world.(context := Reconcile(c, cfg.value)))
    case CliSetLayer(name) =>
      var c1 := SetLayerTo(c, name, ManagementCli);
      if c1.Some? then p.(world := p.world.(context := c1.value)) else p
    case CliNextLayer => p.(world := p.world.(context := NextLayerOf(c, ManagementCli)))
    case CliPreviousLayer => p.(world := p.world.(context := PreviousLayerOf(c, ManagementCli)))
    case CliSetProfile(name) =>
      var c1 := SetProfileTo(c, name, ManagementCli);
      if c1.Some? then p.(world := p.world.(context := c1.value)) else p
  }

  function Fold(env: Backends, p: Pure, ops: seq<Op>): Pure
    requires forall op :: op in ops ==> IsCoarse(op)
  {
    if ops == [] then p
    else
      assert forall op :: op in ops[..|ops| - 1] ==> op in ops;
      Interpretation(env, Fold(env, p, ops[..|ops| - 1]), ops[|ops| - 1])
  }

  function CoarseStep(env: Backends, d: Daemon, op: Op): Daemon {
    if op.Take? then Turn(env, d) else Apply(env, d, op)
  }

  function CoarseRun(env: Backends, d: Daemon, ops: seq<Op>): Daemon {
    if ops == [] then d else CoarseStep(env, CoarseRun(env, d, ops[..|ops| - 1]), ops[|ops| - 1])
  }

  /** The single steps of a coarse run. */
  function StepsOf(env: Backends, d: Daemon, ops: seq<Op>): seq<Op> {
    if ops == [] then []
    else
      var before, op := ops[..|ops| - 1], ops[|ops| - 1];
      StepsOf(env, d, before) + if op.Take? then TurnSteps(CoarseRun(env, d, before)) else [op]
  }

  /** A whole coarse run is a run of the step system, so every result about reachable states holds of it. */
  lemma {:induction false} CoarseRunIsRun(env: Backends, d: Daemon, ops: seq<Op>)
    ensures CoarseRun(env, d, ops) == Run(env, d, StepsOf(env, d, ops))
  {
    if ops != [] {
      var before, op := ops[..|ops| - 1], ops[|ops| - 1];
      var d1 := CoarseRun(env, d, before);
      CoarseRunIsRun(env, d, before);
      TurnIsRun(env, d1);
      RunOne(env, d1, op);
      RunSplit(env, d, StepsOf(env, d, before), if op.Take? then TurnSteps(d1) else [op]);
    }
  }

  function PureOf(d: Daemon): Pure { Pure(d.config, d.world, d.queue, d.capacity) }

  lemma CoarseStepRefines(env: Backends, d: Daemon, op: Op)
    requires d.flight == Idle && IsCoarse(op)
    ensures PureOf(CoarseStep(env, d, op)) == Interpretation(env, PureOf(d), op)
    ensures CoarseStep(env, d, op).flight == Idle
  {
    if op.Take? && d.queue != [] { TurnMeansEvent(env, d); }
  }

  /** The executor refines the interpreter: with arrivals, reloads and management commands only
      between events, the configuration, the profile, the layer, the revision, the whole history of
      attempted steps and the waiting events are those of folding the meaning of each event. */
  lemma {:induction false} ExecutorRefinesInterpreter(env: Backends, d: Daemon, ops: seq<Op>)
    requires d.flight == Idle && forall op :: op in ops ==> IsCoarse(op)
    ensures PureOf(CoarseRun(env, d, ops)) == Fold(env, PureOf(d), ops)
    ensures CoarseRun(env, d, ops).flight == Idle
  {
    if ops != [] {
      var before := ops[..|ops| - 1];
      assert forall op :: op in before ==> op in ops;
      ExecutorRefinesInterpreter(env, d, before);
      CoarseStepRefines(env, CoarseRun(env, d, before), ops[|ops| - 1]);
    }
  }

  // ---- The class ----

  class DaemonRuntime {
    const queue: DropNewestEventQueue
    const context: RuntimeContextManager
    const engine: ActionExecutionEngine
    var config: LayeredControlConfig
    var tallies: Tallies
    var executorDone: bool

    ghost const Repr: set<object> := {this, queue, context, engine}

    ghost predicate Valid() { engine.context == context }

    ghost function Abstract(): Daemon
      requires Valid()
      reads Repr
    {
      Daemon(config, engine.Abstract(), queue.items, queue.capacity, tallies.(dropped := queue.droppedCount),
             if executorDone then Finished else Idle, 0)
    }

    /** The runtime once `run` has loaded its first configuration. */
    constructor (cfg: LayeredControlConfig, capacity: nat)
      ensures Valid() && Abstract() == Start(cfg, capacity)
      ensures fresh(Repr - {this})
    {
      var q := new DropNewestEventQueue(capacity);
      var c := new RuntimeContextManager(cfg.defaultProfile, cfg.initialLayer);
      c.SetConfig(cfg);
      var e := new ActionExecutionEngine(c);
      queue, context, engine := q, c, e;
      config := cfg;
      tallies := Tallies(0, 0, 0, 0, 0, 0, 0, 0, 0, 0, 0, 1);
      executorDone := false;
    }

    /** The body of `consume_events`. */
    method ConsumeEvent(e: OfficialControlEvent)
      requires Valid()
      modifies Repr
      ensures Abstract() == Receiving(old(Abstract()), e)
    {
      tallies := tallies.(received := tallies.received + 1);
      var enqueued := queue.Enqueue(e);
      if enqueued {
        tallies := tallies.(enqueued := tallies.enqueued + 1);
      }
    }

    /** The body of `_executor_loop` for the next queued event. */
    method ExecutorTurn(env: Backends)
      requires Valid() && !executorDone && queue.items != []
      modifies Repr
      ensures Abstract() == Turn(env, old(Abstract()))
    {
      var e := queue.Dequeue();
      var resolution := Resolve(config, DEFAULT_LIMITS, e, context.selectedProfile, context.activeLayer);
      if resolution.Resolved? {
        tallies := tallies.(resolved := tallies.resolved + 1);
        if !resolution.plan.configured {
          tallies := tallies.(unmapped := tallies.unmapped + 1);
          return;
        }
        RunPlan(env, resolution.plan);
      } else {
        tallies := tallies.(failed := tallies.failed + 1);
      }
    }

    /** A configured plan, run to its end and counted. */
    method RunPlan(env: Backends, plan: Plan)
      requires Valid() && plan.configured
      modifies Repr
      ensures var d := old(Abstract());
              var r := RunSteps(env, d.world, plan.steps);
              Abstract() == d.(world := r.world, tallies := Executed(d.tallies, r.status))
    {
      var status, _, _ := engine.Execute(env, plan);
      tallies := tallies.(executed := tallies.executed + 1);
      if status == SUCCESS {
        tallies := tallies.(succeeded := tallies.succeeded + 1);
      } else {
        tallies := tallies.(failed := tallies.failed + 1);
      }
    }

    /** `_handle_reload`; the answer says whether the new configuration is in force. */
    method HandleReload(text: Option<string>) returns (success: bool)
      requires Valid()
      modifies Repr
      ensures Abstract() == Reloading(old(Abstract()), text)
      ensures success <==> text.Some? && Load(text.value).Some?
    {
      var cfg := if text.Some? then Load(text.value) else None;
      if cfg.None? {
        tallies := tallies.(reloadFailures := tallies.reloadFailures + 1);
        return false;
      }
      config := cfg.value;
      tallies := tallies.(configRevision := tallies.configRevision + 1,
                          reloadSuccesses := tallies.reloadSuccesses + 1);
      var _ := context.ReconcileAfterReload(cfg.value);
      return true;
    }

    /** `set_active_layer` on behalf of the management interface. */
    method SetActiveLayer(layer: string) returns (changed: Option<bool>)
      requires Valid()
      modifies Repr
      ensures Abstract() == InContext(old(Abstract()), SetLayerTo(old(context.Abstract()), layer, ManagementCli))
      ensures changed.Some? <==> IsLayerId(layer)
      ensures changed.Some? ==> (changed.value <==> Abstract().world.context != old(Abstract().world.context))
    {
      changed := context.SetLayer(layer, ManagementCli);
    }

    /** `set_selected_profile` on behalf of the management interface. */
    method SetSelectedProfile(profile: string) returns (changed: Option<bool>)
      requires Valid()
      modifies Repr
      ensures Abstract() == InContext(old(Abstract()), SetProfileTo(old(context.Abstract()), profile, ManagementCli))
      ensures changed.Some? <==> SetProfileTo(old(context.Abstract()), profile, ManagementCli).Some?
      ensures changed.Some? ==> (changed.value <==> Abstract().world.context != old(Abstract().world.context))
    {
      changed := context.SetProfile(profile, ManagementCli);
    }

    /** The `finally` of `_executor_loop`. */
    method DrainQueue()
      requires Valid()
      modifies Repr
      ensures Abstract() == Draining(old(Abstract()))
    {
      var discarded := queue.GetAllNowait();
      tallies := tallies.(discarded := tallies.discarded + |discarded|);
      executorDone := true;
    }
  }
}
