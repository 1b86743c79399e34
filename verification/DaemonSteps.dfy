/** The daemon as a step system (`daemon/runtime.py`): an event producer, a bounded queue, one
    executor that runs a plan step by step, reloads, management commands and shutdown, interleaved
    in any order. */
module DaemonSteps {
  import opened Wrappers
  import opened ControlModel
  import opened ConfigParser
  import opened ActionResolver
  import opened RuntimeContext
  import opened ExecutionEngine
  import opened EventQueue

  datatype Tallies = Tallies(
    received: nat, enqueued: nat, dropped: nat, resolved: nat, unmapped: nat, executed: nat,
    succeeded: nat, failed: nat, discarded: nat, reloadSuccesses: nat, reloadFailures: nat, configRevision: nat)

  /** The executor: waiting, part way through a plan, or finished. */
  datatype Flight = Idle | Busy(event: OfficialControlEvent, todo: seq<Action>, status: Status) | Finished

  datatype Daemon = Daemon(
    config: LayeredControlConfig, world: World, queue: Events, capacity: nat, tallies: Tallies,
    flight: Flight, cancelled: nat)

  datatype Op =
    | Receive(event: OfficialControlEvent)
    | Take
    | StepOnce
    | Finish
    | Reload(text: Option<string>)
    | CliSetLayer(layer: string)
    | CliNextLayer
    | CliPreviousLayer
    | CliSetProfile(profile: string)
    | CancelExecutor
    | StopExecutor

  // ---- Steps ----

  /** The daemon once its first configuration has loaded. */
  function Start(cfg: LayeredControlConfig, capacity: nat): Daemon {
    Daemon(cfg, World(Context(Some(cfg), cfg.defaultProfile, cfg.initialLayer, 0, Startup), []), [], capacity,
           Tallies(0, 0, 0, 0, 0, 0, 0, 0, 0, 0, 0, 1), Idle, 0)
  }

  /** `consume_events`, for one event. */
  function Receiving(d: Daemon, e: OfficialControlEvent): Daemon {
    var n := d.tallies.(received := d.tallies.received + 1);
    if |d.queue| >= d.capacity then d.(tallies := n.(dropped := n.dropped + 1))
    else d.(queue := d.queue + [e], tallies := n.(enqueued := n.enqueued + 1))
  }

  /** What the executor resolves an event to: against the context of now, not of arrival. */
  function ResolveNow(d: Daemon, e: OfficialControlEvent): Resolution {
    ResolveEvent(d.config, DEFAULT_LIMITS, e, d.world.context.profile, d.world.context.layer)
  }

  function Taking(d: Daemon): Daemon {
    if d.flight != Idle || d.queue == [] then d
    else
      var e, d1 := d.queue[0], d.(queue := d.queue[1..]);
      var n := d.tallies;
      match ResolveNow(d, e)
      case Resolved(plan) =>
        if plan.configured then
          d1.(tallies := n.(resolved := n.resolved + 1), flight := Busy(e, plan.steps, SUCCESS))
        else
          d1.(tallies := n.(resolved := n.resolved + 1, unmapped := n.unmapped + 1))
      case _ => d1.(tallies := n.(failed := n.failed + 1))
  }

  function Stepping(env: Backends, d: Daemon): Daemon {
    if d.flight.Busy? && d.flight.status == SUCCESS && d.flight.todo != [] then
      var (w, status) := RunLeaf(env, d.world, d.flight.todo[0]);
      d.(world := w, flight := Busy(d.flight.event, d.flight.todo[1..], status))
    else d
  }

  /** One more plan executed, with its status. */
  function Executed(t: Tallies, status: Status): Tallies {
    var n := t.(executed := t.executed + 1);
    if status == SUCCESS then n.(succeeded := n.succeeded + 1) else n.(failed := n.failed + 1)
  }

  function Finishing(d: Daemon): Daemon {
    if d.flight.Busy? && (d.flight.status != SUCCESS || d.flight.todo == []) then
      d.(flight := Idle, tallies := Executed(d.tallies, d.flight.status))
    else d
  }

  /** `_handle_reload` on the text of the configuration file, if it can be read. */
  function Reloading(d: Daemon, text: Option<string>): Daemon {
    var n := d.tallies;
    var cfg := if text.Some? then Load(text.value) else None;
    if cfg.None? then d.(tallies := n.(reloadFailures := n.reloadFailures + 1)) else Reloaded(d, cfg.value)
  }

  function Reloaded(d: Daemon, cfg: LayeredControlConfig): Daemon {
    var n := d.tallies;
    d.(config := cfg,
       world := d.world.(context := Reconcile(d.world.context, cfg)),
       tallies := n.(reloadSuccesses := n.reloadSuccesses + 1, configRevision := n.configRevision + 1))
  }

  function InContext(d: Daemon, changed: Option<Context>): Daemon {
    if changed.Some? then d.(world := d.world.(context := changed.value)) else d
  }

  /** The executor's last act: whatever is queued is discarded. */
  function Draining(d: Daemon): Daemon {
    d.(queue := [], flight := Finished, tallies := d.tallies.(discarded := d.tallies.discarded + |d.queue|))
  }

  function Apply(env: Backends, d: Daemon, op: Op): Daemon {
    match op
    case Receive(e) => Receiving(d, e)
    case Take => Taking(d)
    case StepOnce => Stepping(env, d)
    case Finish => Finishing(d)
    case Reload(text) => Reloading(d, text)
    case CliSetLayer(layer) => InContext(d, SetLayerTo(d.world.context, layer, ManagementCli))
    case CliNextLayer => InContext(d, Some(NextLayerOf(d.world.context, ManagementCli)))
    case CliPreviousLayer => InContext(d, Some(PreviousLayerOf(d.world.context, ManagementCli)))
    case CliSetProfile(profile) => InContext(d, SetProfileTo(d.world.context, profile, ManagementCli))
    case CancelExecutor =>
      if d.flight == Finished then d
      else Draining(d).(cancelled := d.cancelled + if d.flight.Busy? then 1 else 0)
    case StopExecutor => if d.flight == Idle then Draining(d) else d
  }

  function Run(env: Backends, d: Daemon, ops: seq<Op>): Daemon {
    if ops == [] then d else Apply(env, Run(env, d, ops[..|ops| - 1]), ops[|ops| - 1])
  }

  // ---- What each step does, said of the state ----

  /** Nothing but the context is different, and that is where the request leads. */
  predicate OnlyContext(d: Daemon, d1: Daemon) {
    d1 == d.(world := d.world.(context := d1.world.context))
  }

  /** A management request: a layer or profile that is none is refused; another one is where the
      context lands, as is the successor or the predecessor in the cycle. */
  ghost predicate RequestDoes(d: Daemon, op: Op, d1: Daemon) {
    var c, c1 := d.world.context, d1.world.context;
    && OnlyContext(d, d1)
    && match op
       case CliSetLayer(layer) =>
         if IsLayerId(layer) then LandsAt(c, c1, c.profile, layer, ManagementCli) else c1 == c
       case CliSetProfile(profile) =>
         if c.config.Some? && IsProfileId(profile) && profile in c.config.value.profiles
         then LandsAt(c, c1, profile, c.config.value.initialLayer, ManagementCli) else c1 == c
       case CliNextLayer =>
         if c.config.None? then c1 == c
         else LandsAt(c, c1, c.profile, c1.layer, ManagementCli) && IsSuccessor(c, Anchor(c), c1.layer)
       case CliPreviousLayer =>
         if c.config.None? then c1 == c
         else LandsAt(c, c1, c.profile, c1.layer, ManagementCli) && IsAvailable(c, c1.layer) && IsSuccessor(c, c1.layer, Anchor(c))
       case _ => true
  }

  lemma RequestsDo(env: Backends, d: Daemon, op: Op)
    requires op.CliSetLayer? || op.CliSetProfile? || op.CliNextLayer? || op.CliPreviousLayer?
    ensures RequestDoes(d, op, Apply(env, d, op))
  {
    var c := d.world.context;
    match op {
      case CliSetLayer(layer) => SettingLands(c, layer, ManagementCli);
      case CliSetProfile(profile) => SettingLands(c, profile, ManagementCli);
      case _ => if c.config.Some? { CyclingLands(c, ManagementCli); }
    }
  }

  /** An arriving event joins the queue while there is room, and is dropped otherwise. */
  lemma ReceivingDoes(env: Backends, d: Daemon, e: OfficialControlEvent)
    ensures var d1 := Apply(env, d, Receive(e));
            var room := |d.queue| < d.capacity;
            && d1.queue == (if room then d.queue + [e] else d.queue)
            && d1.tallies == d.tallies.(received := d.tallies.received + 1,
                                        enqueued := d.tallies.enqueued + (if room then 1 else 0),
                                        dropped := d.tallies.dropped + (if room then 0 else 1))
            && d1 == d.(queue := d1.queue, tallies := d1.tallies)
  {
  }

  /** A reload that loads replaces the configuration and moves the context as `ReloadLands` says; one
      that does not is counted and changes nothing. */
  lemma ReloadingDoes(env: Backends, d: Daemon, text: Option<string>)
    ensures var d1, n := Apply(env, d, Reload(text)), d.tallies;
            if text.Some? && Load(text.value).Some? then
              var cfg := Load(text.value).value;
              && d1.config == cfg && d1.world.context.config == Some(cfg)
              && d1.tallies == n.(reloadSuccesses := n.reloadSuccesses + 1, configRevision := n.configRevision + 1)
              && d1 == d.(config := cfg, world := d.world.(context := d1.world.context), tallies := d1.tallies)
              && (d.world.context.profile in cfg.profiles ==> d1.world.context.profile == d.world.context.profile)
            else d1 == d.(tallies := n.(reloadFailures := n.reloadFailures + 1))
  {
    if text.Some? && Load(text.value).Some? { ReloadLands(d.world.context, Load(text.value).value); }
  }

  /** Stopping or cancelling an executor that has not finished discards and counts what is queued; a
      plan in flight is counted as cancelled. An idle executor alone is stopped. */
  lemma StoppingDoes(env: Backends, d: Daemon)
    ensures var stopped := d.(queue := [], flight := Finished,
                              tallies := d.tallies.(discarded := d.tallies.discarded + |d.queue|));
            && Apply(env, d, StopExecutor) == (if d.flight == Idle then stopped else d)
            && Apply(env, d, CancelExecutor)
                 == if d.flight == Finished then d
                    else if d.flight.Busy? then stopped.(cancelled := d.cancelled + 1) else stopped
  {
  }

  // ---- Conservation ----

  function InFlight(d: Daemon): nat { if d.flight.Busy? then 1 else 0 }

  /** Every received event is queued or dropped, and every queued one ends up succeeded, failed,
      unmapped, discarded, still queued, in flight, or cancelled; at most one is in flight or
      cancelled, and the queue never exceeds its capacity. */
  predicate Conserved(d: Daemon) {
    var n := d.tallies;
    && n.received == n.enqueued + n.dropped
    && n.enqueued == n.succeeded + n.failed + n.unmapped + |d.queue| + n.discarded + InFlight(d) + d.cancelled
    && InFlight(d) + d.cancelled <= 1
    && (d.cancelled > 0 ==> d.flight == Finished)
    && |d.queue| <= d.capacity
    && n.succeeded <= n.executed <= n.succeeded + n.failed
  }

  /** The context follows the resolver's configuration, which was loaded, and its profile exists. */
  predicate InStep(d: Daemon) { IsLoaded(d.config) && Aligned(d.config, d.world.context) }

  predicate Aligned(cfg: LayeredControlConfig, c: Context) {
    c.config == Some(cfg) && c.profile in cfg.profiles
  }

  lemma ApplyConserves(env: Backends, d: Daemon, op: Op)
    requires Conserved(d)
    ensures Conserved(Apply(env, d, op))
  {
    match op {
      case Take => TakingConserves(d);
      case StepOnce => SteppingConserves(env, d);
      case Reload(text) => ReloadingConserves(d, text);
      case _ =>
    }
  }

  lemma TakingConserves(d: Daemon)
    requires Conserved(d)
    ensures Conserved(Taking(d))
  {
  }

  lemma SteppingConserves(env: Backends, d: Daemon)
    requires Conserved(d)
    ensures Conserved(Stepping(env, d))
  {
  }

  lemma ReloadingConserves(d: Daemon, text: Option<string>)
    requires Conserved(d)
    ensures Conserved(Reloading(d, text))
  {
  }

  lemma ContextStaysAligned(cfg: LayeredControlConfig, c: Context, name: string, source: ChangeSource)
    requires Aligned(cfg, c)
    ensures SetLayerTo(c, name, source).Some? ==> Aligned(cfg, SetLayerTo(c, name, source).value)
    ensures Aligned(cfg, NextLayerOf(c, source)) && Aligned(cfg, PreviousLayerOf(c, source))
    ensures SetProfileTo(c, name, source).Some? ==> Aligned(cfg, SetProfileTo(c, name, source).value)
  {
  }

  /** The name a control step carries, if any. */
  function NameIn(a: Action): string {
    match a
    case SetLayer(name) => name
    case SetProfile(name) => name
    case _ => ""
  }

  function NameOf(op: Op): string {
    match op
    case CliSetLayer(name) => name
    case CliSetProfile(name) => name
    case _ => ""
  }

  lemma RunLeafStaysAligned(env: Backends, cfg: LayeredControlConfig, w: World, a: Action)
    requires Aligned(cfg, w.context)
    ensures Aligned(cfg, RunLeaf(env, w, a).0.context)
  {
    ContextStaysAligned(cfg, w.context, NameIn(a), ControlAction);
  }

  lemma ReloadKeepsInStep(d: Daemon, text: Option<string>)
    requires InStep(d)
    ensures InStep(Reloading(d, text))
  {
    if text.Some? && Load(text.value).Some? {
      LoadedConfig(text.value);
      ReloadedIsInStep(d, Load(text.value).value);
    }
  }

  lemma ReloadedIsInStep(d: Daemon, cfg: LayeredControlConfig)
    requires IsLoaded(cfg)
    ensures InStep(Reloaded(d, cfg))
  {
    ReloadIsCounted(d.world.context, cfg);
  }

  lemma OtherStepsStayAligned(env: Backends, d: Daemon, op: Op)
    requires Aligned(d.config, d.world.context) && !op.Reload?
    ensures Apply(env, d, op).config == d.config && Aligned(d.config, Apply(env, d, op).world.context)
  {
    ContextStaysAligned(d.config, d.world.context, NameOf(op), ManagementCli);
    if op.StepOnce? && d.flight.Busy? && d.flight.todo != [] {
      RunLeafStaysAligned(env, d.config, d.world, d.flight.todo[0]);
    }
  }

  lemma ApplyKeepsInStep(env: Backends, d: Daemon, op: Op)
    requires InStep(d)
    ensures InStep(Apply(env, d, op))
  {
    if op.Reload? {
      ReloadKeepsInStep(d, op.text);
    } else {
      OtherStepsStayAligned(env, d, op);
    }
  }

  /** In every reachable state the snapshot counters balance and the context is in step. */
  lemma {:induction false} ReachableStates(env: Backends, cfg: LayeredControlConfig, capacity: nat, ops: seq<Op>)
    requires IsLoaded(cfg)
    ensures Conserved(Run(env, Start(cfg, capacity), ops)) && InStep(Run(env, Start(cfg, capacity), ops))
  {
    if ops != [] {
      var before := ops[..|ops| - 1];
      ReachableStates(env, cfg, capacity, before);
      ApplyConserves(env, Run(env, Start(cfg, capacity), before), ops[|ops| - 1]);
      ApplyKeepsInStep(env, Run(env, Start(cfg, capacity), before), ops[|ops| - 1]);
    }
  }

  /** So the executor never meets an unknown profile. */
  lemma ProfileAlwaysKnown(env: Backends, cfg: LayeredControlConfig, capacity: nat, ops: seq<Op>, e: OfficialControlEvent)
    requires IsLoaded(cfg)
    ensures ResolveNow(Run(env, Start(cfg, capacity), ops), e) != UnknownProfile
  {
    ReachableStates(env, cfg, capacity, ops);
  }

  // ---- First in, first out ----

  /** The events accepted into the queue, in order. */
  function AcceptedBy(env: Backends, d: Daemon, ops: seq<Op>): Events {
    if ops == [] then []
    else
      var before, op := Run(env, d, ops[..|ops| - 1]), ops[|ops| - 1];
      AcceptedBy(env, d, ops[..|ops| - 1]) + Accepting(before, op)
  }

  function Accepting(d: Daemon, op: Op): Events {
    if op.Receive? && |d.queue| < d.capacity then [op.event] else []
  }

  /** The events that left the queue, in order: taken by the executor, or discarded at its end. */
  function DepartedBy(env: Backends, d: Daemon, ops: seq<Op>): Events {
    if ops == [] then []
    else
      var before, op := Run(env, d, ops[..|ops| - 1]), ops[|ops| - 1];
      DepartedBy(env, d, ops[..|ops| - 1]) + Departing(before, op)
  }

  function Departing(d: Daemon, op: Op): Events {
    match op
    case Take => if d.flight == Idle && d.queue != [] then [d.queue[0]] else []
    case CancelExecutor => if d.flight == Finished then [] else d.queue
    case StopExecutor => if d.flight == Idle then d.queue else []
    case _ => []
  }

  /** Events leave in the order they were accepted, none lost or invented: what was accepted is what
      has left followed by what is queued, and its length is the enqueued counter. */
  lemma {:induction false} FirstInFirstOut(env: Backends, d: Daemon, ops: seq<Op>)
    requires d.queue == []
    ensures AcceptedBy(env, d, ops) == DepartedBy(env, d, ops) + Run(env, d, ops).queue
    ensures Run(env, d, ops).tallies.enqueued == d.tallies.enqueued + |AcceptedBy(env, d, ops)|
  {
    if ops != [] {
      var before := ops[..|ops| - 1];
      FirstInFirstOut(env, d, before);
      var mid, op := Run(env, d, before), ops[|ops| - 1];
      QueueStep(env, mid, op);
      Reassociate(DepartedBy(env, d, before), mid.queue, Accepting(mid, op), Departing(mid, op), Apply(env, mid, op).queue);
    }
  }

  lemma Reassociate(left: Events, queue: Events, accepted: Events, departing: Events, queue1: Events)
    requires queue + accepted == departing + queue1
    ensures (left + queue) + accepted == (left + departing) + queue1
  {
    assert (left + queue) + accepted == left + (queue + accepted);
  }

  lemma QueueStep(env: Backends, d: Daemon, op: Op)
    ensures d.queue + Accepting(d, op) == Departing(d, op) + Apply(env, d, op).queue
    ensures Apply(env, d, op).tallies.enqueued == d.tallies.enqueued + |Accepting(d, op)|
  {
  }

  // ---- Revisions ----

  /** How many steps of the run moved the profile or the layer. */
  function Moves(env: Backends, d: Daemon, ops: seq<Op>): nat {
    if ops == [] then 0
    else
      var before := ops[..|ops| - 1];
      Moves(env, d, before)
      + if Position(Run(env, d, before).world.context) != Position(Run(env, d, ops).world.context) then 1 else 0
  }

  lemma RunLeafCounts(env: Backends, w: World, a: Action)
    ensures Counted(w.context, RunLeaf(env, w, a).0.context)
  {
    ChangesAreCounted(w.context, NameIn(a), ControlAction);
  }

  lemma ReloadCounts(d: Daemon, text: Option<string>)
    ensures Counted(d.world.context, Reloading(d, text).world.context)
  {
    if text.Some? && Load(text.value).Some? {
      LoadedConfig(text.value);
      ReloadIsCounted(d.world.context, Load(text.value).value);
    }
  }

  lemma ApplyCounts(env: Backends, d: Daemon, op: Op)
    ensures Counted(d.world.context, Apply(env, d, op).world.context)
  {
    if op.Reload? {
      ReloadCounts(d, op.text);
    } else {
      ChangesAreCounted(d.world.context, NameOf(op), ManagementCli);
      if op.StepOnce? && d.flight.Busy? && d.flight.todo != [] {
        RunLeafCounts(env, d.world, d.flight.todo[0]);
      }
    }
  }

  /** The context revision is the number of times the profile or the layer really changed. */
  lemma {:induction false} RevisionCountsMoves(env: Backends, cfg: LayeredControlConfig, capacity: nat, ops: seq<Op>)
    ensures Run(env, Start(cfg, capacity), ops).world.context.revision == Moves(env, Start(cfg, capacity), ops)
  {
    if ops != [] {
      var before := ops[..|ops| - 1];
      RevisionCountsMoves(env, cfg, capacity, before);
      ApplyCounts(env, Run(env, Start(cfg, capacity), before), ops[|ops| - 1]);
    }
  }
}
