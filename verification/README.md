# A verified model of the keypad daemon and its configuration editor

The repository drives a keypad with 24 controls. This project models its five stateful parts and
proves what they keep:

- **Configuration text.** The canonical printer, a reader for the grammar it emits (TOML v1.0.0:
  dotted keys, basic strings, integers, arrays, inline tables), the schema parsers and the action specs.
  Main results: `ConfigRoundTrip.RoundTripExactly`,
  `ConfigGrammar.ConfigExactly`.
- **The daemon.** Queue, context, resolver, execution engine and executor, as classes and as a step
  system with any interleaving. Main results: `DaemonSteps.ReachableStates`,
  `DaemonSteps.FirstInFirstOut`, `DaemonRuntime.ExecutorRefinesInterpreter`.
- **The key decoder.** Adapter, codebook, parser and pipeline. Main results:
  `TransportTrace.RunPairs`, `TransportTrace.ShiftAttribution`, `ObservationPipeline.CompleteRun`.
- **Drafts and differences.** The edits as functions on configurations and as methods on an object
  graph whose dictionaries are shared and changed in place. Main results: `ConfigDraft.ApplyAll`,
  `EditEffects.EditHasEffect`, `DraftModel.RunKeepsProfilesClosed`, `ConfigDiff.ReportedExactly`, `ConfigDiff.SwapMirrors`.
- **Crash protocols and discovery.** Every state a publication, a save or a restore passes through,
  down to single characters. Main results: `Recovery.ResumeIsOnePublication`,
  `SaveProtocol.SaveDraft`, `DeviceDiscovery.OrderDoesNotMatter`.

Each imperative method is proved against a function on values; the results are lemmas about those
functions, over every input and every run. `dafny verify dfyconfig.toml` checks everything.

## Where the code does not keep what one might expect

Each has a concrete witness or an exact condition among the lemmas.

- A configuration that loads may print to text that does not: exactly when its schema is not 2, its default
  profile maps no control, a profile maps a control but none in its general layer, or the identifier of a
  profile that maps a control ends in a newline, which the pattern `[a-z][a-z0-9_-]{0,63}$` lets through
  (`LoadedConfigs.LostExactly`; one loadable configuration in each family alone: `LoadedConfigs.LoadedButLost`).
- Validation accepts drafts that a save does not preserve: profiles and layers that map nothing vanish
  (`LoadedConfigs.PreservedExactly`; a layer just added: `LoadedConfigs.AddedLayerVanishes`).
- Action specs truncate a timeout below one second to zero, and zero is not printed
  (`ActionSpec.SpecRoundTrip`; half a second: `ActionSpec.FractionalTimeoutIsLost`).
- Renaming the general layer is allowed (`DraftModel.GeneralIsKept`; one: `DraftModel.GeneralIsLost`). Renaming a
  profile keeps the redundant identifier inside the profile; a later layer edit replaces it
  (`DraftModel.RenameProfileBack`, `DraftModel.RenameLayerBack`; one for each condition: `DraftModel.RenamesThatStay`).
- Setting an action does not check what it refers to (`DraftModel.EditKeepsProfilesClosed`,
  `DraftModel.EditKeepsLayerTargets`; over runs: `DraftModel.RunKeepsProfilesClosed`, `DraftModel.RunKeepsLayersClosed`).
- An observation cut while it releases what is held leaves the remaining releases neither yielded nor counted
  as dropped (`ObservationPipeline.ReleasesAccounted`; a run: `ObservationPipeline.ReleaseNeitherYieldedNorCounted`).
- A save that replaces the target replaces bytes it never checked exactly when another process’s act after
  the last digest check changed the target’s digest (`SaveProtocol.InstallOver`, `SaveProtocol.SaveDraft`; a run: `SaveProtocol.LostUpdate`).
- A restore checks the digest once, before it copies anything, so its window is wider
  (`SaveProtocol.RestoreLosesOnlyToOthers`, `SaveProtocol.OneActDecides`; a run: `SaveProtocol.RestoreLosesUpdate`).
- An interrupted discard of a recovery can leave a manifest without a draft; resuming it then gives a
  fresh, unrestored session (`Recovery.UnrestoredExactly`; a run: `Recovery.InterruptedDiscard`).

## Model

| member | source | states |
|---|---|---|
| `Text.DecimalDenotes` | src/yyr4_linux_control/configurator/serializer.py:122-129 | a printed numeral denotes the number it was printed from |
| `Text.SortedIncreases` | src/yyr4_linux_control/configurator/serializer.py:129-147 | sorting by value lists every key once, in strictly increasing code point order |
| `Text.LexLeMeans` | src/yyr4_linux_control/configurator/serializer.py:129-147 | that order: a beginning comes first, and otherwise the first difference decides |
| `RoundTrip.ReadEscaped` | src/yyr4_linux_control/configurator/serializer.py:74-101 | TOML-unescaping the escaped text gives the string back, and the closing quote is the first unescaped one |
| `RoundTrip.ReadTomlStr` | src/yyr4_linux_control/configurator/serializer.py:74-101 | a printed string reads as that string value and is never taken for a multi-line string |
| `RoundTrip.ReadTomlStrs` | src/yyr4_linux_control/configurator/serializer.py:104-105 | a printed string list reads back as that list, whatever follows it |
| `RoundTrip.ReadIntText` | src/yyr4_linux_control/configurator/serializer.py:22-69 | a printed integer, negative ones included, reads back as that integer |
| `RoundTrip.ReadAction` | src/yyr4_linux_control/configurator/serializer.py:22-69 | the inline table printed for any action tree, at any indentation, reads back as the value its spec denotes |
| `RoundTrip.ReadSteps` | src/yyr4_linux_control/configurator/serializer.py:41-46 | the indented multi-line array of macro steps reads back as the array of its steps |
| `RoundTrip.ReadStatement` | src/yyr4_linux_control/configurator/serializer.py:22-69 | a printed dotted-key statement stores exactly its value under its path |
| `Serializer.PrintString` | src/yyr4_linux_control/configurator/serializer.py:74-101 | the character loop produces the escaped text |
| `CanonicalOrder.EscapeTable` | src/yyr4_linux_control/configurator/serializer.py:74-101 | how each character is printed inside a string: seven short escapes, four lower-case hex digits for the other control characters, itself otherwise |
| `Serializer.Serialize` | src/yyr4_linux_control/configurator/serializer.py:122-151 | the nested printing loops produce the canonical text that the round trip is about |
| `CanonicalOrder.LinesInOrder` | src/yyr4_linux_control/configurator/serializer.py:122-151 | any two mapped controls have their lines in the text, written out, in the order of their profiles, then layers, then of the fixed list of controls |
| `CanonicalOrder.HeaderFirst` | src/yyr4_linux_control/configurator/serializer.py:122-127 | the text begins with the schema version, the default profile and the initial layer, a line each, and an empty line |
| `ConfigParser.BuildSteps` | src/yyr4_linux_control/control/config.py:170-265 | the step loop returns the steps in order, or nothing if one is refused |
| `ConfigParser.BuildControls` | src/yyr4_linux_control/control/config.py:146-168 | the control loop accepts a table exactly when every key is a control and every action parses |
| `ConfigParser.BuildAll` | src/yyr4_linux_control/control/config.py:62-144 | the profile and layer loops accept a table exactly when every entry is accepted |
| `ConfigParser.LoadedConfig` | src/yyr4_linux_control/control/config.py:17-168 | whatever loads has a valid default profile, valid identifiers that agree with their keys, and a general layer in every profile |
| `ConfigGrammar.ConfigExactly` | src/yyr4_linux_control/control/config.py:30-265 | loading accepts data as a configuration exactly when the data denotes it, field by field: no unknown field at any level, every required field of its type, context actions in schema 2 only |
| `ConfigGrammar.ActionExactly` | src/yyr4_linux_control/control/config.py:170-265 | the same for one action, macro steps included |
| `ConfigRoundTrip.LoadsPrinted` | src/yyr4_linux_control/configurator/serializer.py:122-151 | the printed text decodes to the nested tables of the mapped controls, or to nothing if an identifier breaks a key |
| `ConfigRoundTrip.RoundTripExactly` | src/yyr4_linux_control/configurator/serializer.py:22-151 | loading the printed text gives the normal form exactly when the configuration survives: schema 2, mapped default profile, a mapped general layer in every mapped profile, no identifier ending in a newline; otherwise loading fails |
| `ConfigRoundTrip.NormalFormFixed` | src/yyr4_linux_control/configurator/serializer.py:122-151 | the normal form is a fixed point of printing and loading |
| `ConfigRoundTrip.ConfigTextInjective` | src/yyr4_linux_control/configurator/serializer.py:122-151 | two configurations with the same text have the same normal form |
| `ConfigRoundTrip.Validate` | src/yyr4_linux_control/configurator/draft.py:486-509 | round-trip validation succeeds exactly for the configurations that survive |
| `LoadedConfigs.LoadableExactly` | src/yyr4_linux_control/control/config.py:30-265 | the image of the loader: some decoded file parses to a configuration exactly when it is a schema-1 one of a single general layer without context actions, or a schema-2 one whose identifiers are valid and agree with their keys, whose default profile exists and whose profiles have a general layer |
| `LoadedConfigs.LoadedButLost` | src/yyr4_linux_control/control/models.py:78-90 | each of the four families holds a configuration that some file loads as, that is in no other family, and whose text does not load |
| `LoadedConfigs.PreservedExactly` | src/yyr4_linux_control/configurator/draft.py:486-509 | printing and loading gives the very configuration back exactly when it survives and is lossless: identifiers agree with keys, every profile has a layer, every layer maps a control, no timeout is zero |
| `LoadedConfigs.AddedLayerVanishes` | src/yyr4_linux_control/configurator/draft.py:274-301 | a draft with a layer just added validates, and loads as the configuration without it |
| `LoadedConfigs.LostExactly` | src/yyr4_linux_control/control/models.py:78-90 | a configuration whose default profile exists, loaded ones included, prints to text that does not load exactly when its schema is not 2, its default profile maps no control, a profile maps controls but none in its general layer, or the identifier of a profile that maps controls ends in a newline |
| `ActionSpec.BuildStepSpecs` | src/yyr4_linux_control/configurator/action_spec.py:163-172 | the macro step loop returns the steps in order, or nothing if one is refused |
| `ActionSpec.ParseActionInverse` | src/yyr4_linux_control/control/config.py:170-265 | schema-2 parsing inverts the spec printer up to timeout 0 read as none |
| `ActionSpec.ParseSpecSound` | src/yyr4_linux_control/configurator/action_spec.py:91-196 | an accepted spec denotes an action within the nesting limit whose identifiers are valid |
| `ConfigGrammar.SpecExactly` | src/yyr4_linux_control/configurator/action_spec.py:66-196 | a spec is accepted as an action exactly when it denotes it: only the fields of its kind, macros at most ten deep, valid layer and profile names, numbers without their fraction, a timeout of zero as none |
| `ActionSpec.ParseSpecInverse` | src/yyr4_linux_control/configurator/action_spec.py:17-64 | the spec of an action is accepted exactly for the actions specs can denote, and then gives its normal form |
| `ActionSpec.SpecRoundTrip` | src/yyr4_linux_control/configurator/action_spec.py:17-64 | printing an accepted spec and parsing it again, as spec or as configuration, gives the same action exactly when no timeout was truncated to zero |
| `ActionSpec.FractionalTimeoutIsLost` | src/yyr4_linux_control/configurator/action_spec.py:141-151 | a timeout of half a second is truncated to zero and then lost |
| `ActionResolver.FlattenAction` | src/yyr4_linux_control/control/actions.py:126-138 | flattening succeeds exactly when every node is within the depth limit and the leaf count within the step limit, and gives the in-order leaves, none a macro |
| `ActionResolver.FitsExactly` | src/yyr4_linux_control/control/actions.py:126-138 | within the limits exactly when no node is deeper than the depth limit and a macro with steps has at most the limit of leaves |
| `ActionResolver.LeavesAreNoMacros` | src/yyr4_linux_control/control/actions.py:126-138 | the in-order leaves of a tree contain no macro |
| `ActionResolver.AcceptedSpecFits` | src/yyr4_linux_control/control/actions.py:126-138 | an accepted spec never exceeds the default depth limit: it fits exactly when it has at most 100 leaves |
| `ActionResolver.Resolve` | src/yyr4_linux_control/control/actions.py:149-193 | a press runs the active layer’s own entry if it has one, else the general layer’s, else nothing, each named as the source; releases resolve to nothing, and limits are checked on the entry found |
| `ActionResolver.PressRunsActiveFirst` | src/yyr4_linux_control/control/actions.py:160-193 | the same of the resolution function the daemon results are about |
| `RuntimeContext.RuntimeContextManager.SetLayer` | src/yyr4_linux_control/daemon/context.py:50-60 | the new context and whether it changed; an unknown name changes nothing |
| `RuntimeContext.RuntimeContextManager.GatherAvailable` | src/yyr4_linux_control/daemon/context.py:62-98 | the loop lists the available layers of the selected profile |
| `RuntimeContext.RuntimeContextManager.NextLayer` | src/yyr4_linux_control/daemon/context.py:62-98 | the new context; changed exactly when it differs |
| `RuntimeContext.RuntimeContextManager.PreviousLayer` | src/yyr4_linux_control/daemon/context.py:100-128 | the new context; changed exactly when it differs |
| `RuntimeContext.RuntimeContextManager.SetProfile` | src/yyr4_linux_control/daemon/context.py:130-149 | the new context and whether it changed; an unknown profile changes nothing |
| `RuntimeContext.RuntimeContextManager.ReconcileAfterReload` | src/yyr4_linux_control/daemon/context.py:151-171 | the context after a reload; changed exactly when the revision moved |
| `RuntimeContext.AvailableIsCycle` | src/yyr4_linux_control/daemon/context.py:62-98 | the cycle holds the general layer and the declared layers, each once |
| `RuntimeContext.CyclingLands` | src/yyr4_linux_control/daemon/context.py:62-128 | next lands on the least available layer above the active one (or above general, if that one is not available), or on general; previous lands on the layer whose next that is; the move is counted and its source remembered |
| `RuntimeContext.SettingLands` | src/yyr4_linux_control/daemon/context.py:50-149 | a layer is set as asked, a profile on the initial layer of the configuration, and a name that is none is refused |
| `RuntimeContext.ReloadLands` | src/yyr4_linux_control/daemon/context.py:151-171 | after a reload the profile stays if it exists, and then the layer if the profile has it; otherwise the default profile and the initial layer take over |
| `RuntimeContext.NextIsSuccessor` | src/yyr4_linux_control/daemon/context.py:62-98 | next goes to the least available layer above in value order, or back to general |
| `RuntimeContext.PreviousUndoesNext` | src/yyr4_linux_control/daemon/context.py:62-128 | previous undoes next, and next undoes previous, exactly when the active layer is available |
| `RuntimeContext.ChangesAreCounted` | src/yyr4_linux_control/daemon/context.py:50-149 | every context change moves the revision by one exactly when profile or layer changed |
| `RuntimeContext.ReloadIsCounted` | src/yyr4_linux_control/daemon/context.py:151-171 | a reload leaves a profile of the new configuration selected and counts the change |
| `ExecutionEngine.ActionExecutionEngine.RunStep` | src/yyr4_linux_control/execution/engine.py:45-160 | the step is attempted once; a control step lands where it says and a name that is none fails; every other step leaves the context alone and has the status its backend’s answer calls for |
| `ExecutionEngine.RunLeafDoes` | src/yyr4_linux_control/execution/engine.py:45-160 | the same of the leaf function the daemon results are about |
| `ExecutionEngine.ActionExecutionEngine.Execute` | src/yyr4_linux_control/execution/engine.py:32-183 | results are a SUCCESS prefix, at most one other status, then SKIPPED; the completed count is the prefix length |
| `ExecutionEngine.FlatteningPreservesMeaning` | src/yyr4_linux_control/execution/engine.py:45-170 | running the flattened leaves means what interpreting the macro tree in order, stopping at the first failure, means: same context, same backend calls, same status |
| `EventQueue.DropNewestEventQueue.Enqueue` | src/yyr4_linux_control/daemon/queue.py:15-22 | accepted exactly below capacity; a refused event is the newest and is counted |
| `EventQueue.DropNewestEventQueue.Dequeue` | src/yyr4_linux_control/daemon/queue.py:24-25 | the oldest event leaves, the rest keep their order |
| `EventQueue.DropNewestEventQueue.GetAllNowait` | src/yyr4_linux_control/daemon/queue.py:34-41 | draining returns every queued event in order and empties the queue |
| `DaemonSteps.ReachableStates` | src/yyr4_linux_control/daemon/runtime.py:84-275 | in every reachable state received = enqueued + dropped, enqueued = outcomes + queue + discarded + in flight, the queue is within capacity, and the context is that of the resolver’s configuration |
| `DaemonSteps.ProfileAlwaysKnown` | src/yyr4_linux_control/daemon/runtime.py:147-205 | no reachable state resolves an event against an unknown profile |
| `DaemonSteps.FirstInFirstOut` | src/yyr4_linux_control/daemon/runtime.py:170-275 | events leave the queue, to be run or discarded, in the order they were accepted, and none is lost |
| `DaemonSteps.RevisionCountsMoves` | src/yyr4_linux_control/daemon/runtime.py:147-205 | the revision is the number of times the profile and layer pair changed |
| `DaemonSteps.RequestsDo` | src/yyr4_linux_control/daemon/runtime.py:421-475 | where each management request moves the context, and that nothing else changes |
| `DaemonSteps.ReceivingDoes` | src/yyr4_linux_control/daemon/runtime.py:258-275 | an arriving event joins the queue while there is room, and is dropped otherwise; which counters move |
| `DaemonSteps.ReloadingDoes` | src/yyr4_linux_control/daemon/runtime.py:147-168 | a reload that loads replaces the configuration, one that does not is counted and changes nothing |
| `DaemonSteps.StoppingDoes` | src/yyr4_linux_control/daemon/runtime.py:206-213 | stopping and cancelling discard and count what is queued, and a plan in flight is counted as cancelled |
| `DaemonRuntime.TurnIsRun` | src/yyr4_linux_control/daemon/runtime.py:170-205 | in every state, an executor turn is the run of its single steps, whether or not it starts a plan |
| `DaemonRuntime.CoarseRunIsRun` | src/yyr4_linux_control/daemon/runtime.py:170-275 | a whole run of turns, arrivals, reloads and requests is a run of the step system, so what holds of every reachable state holds of it |
| `DaemonRuntime.TurnMeansEvent` | src/yyr4_linux_control/daemon/runtime.py:170-205 | a turn leaves the world as the recursive interpreter of the oldest event would |
| `DaemonRuntime.TurnCountsEvent` | src/yyr4_linux_control/daemon/runtime.py:170-205 | a turn counts its event as unmapped, succeeded or failed by what the interpreter makes of it |
| `DaemonRuntime.EventRunsActiveFirst` | src/yyr4_linux_control/daemon/runtime.py:170-205 | meaning and count of an event, off the configuration: the entry of the active layer, or else of the general one, interpreted if it is within the limits; otherwise unmapped |
| `DaemonRuntime.ExecutorRefinesInterpreter` | src/yyr4_linux_control/daemon/runtime.py:170-205 | over any interleaving of events, turns, reloads and management requests, the executor’s context, backend calls and queue equal a fold of the recursive interpreter |
| `DaemonRuntime.DaemonRuntime.ConsumeEvent` | src/yyr4_linux_control/daemon/runtime.py:258-275 | one received event is the receiving step |
| `DaemonRuntime.DaemonRuntime.ExecutorTurn` | src/yyr4_linux_control/daemon/runtime.py:170-205 | one pass of the executor loop is the turn of the step system |
| `DaemonRuntime.DaemonRuntime.HandleReload` | src/yyr4_linux_control/daemon/runtime.py:147-168 | a reload replaces configuration and context together, exactly when the file loads |
| `DaemonRuntime.DaemonRuntime.SetActiveLayer` | src/yyr4_linux_control/daemon/runtime.py:421-475 | a management layer request is the context step; it is refused for a name that is no layer, and otherwise the answer is true exactly when the context changed |
| `DaemonRuntime.DaemonRuntime.SetSelectedProfile` | src/yyr4_linux_control/daemon/runtime.py:421-475 | a management profile request is the context step; it is refused for an unknown profile, and otherwise the answer is true exactly when the context changed |
| `DaemonRuntime.DaemonRuntime.DrainQueue` | src/yyr4_linux_control/daemon/runtime.py:206-213 | draining at shutdown discards and counts what is queued |
| `Codebook.Build` | src/yyr4_linux_control/transport/codebook.py:18-51 | a table is accepted exactly when it has 24 entries that do not clash and use the expected keys, and then the lookups hold exactly its entries |
| `Codebook.BuiltIsConsistent` | src/yyr4_linux_control/transport/codebook.py:18-66 | every control found by a code is recorded with a code of that representation |
| `Codebook.LookupInverse` | src/yyr4_linux_control/transport/codebook.py:53-66 | the code recorded for a control found by a plain or shifted key is that very code |
| `Codebook.BuildDefaultMappings` | src/yyr4_linux_control/transport/codebook.py:68-117 | the two loops list twelve buttons, then three movements of each of four encoders |
| `Codebook.DefaultAcceptable` | src/yyr4_linux_control/transport/codebook.py:68-117 | the default entries are accepted |
| `Codebook.BuildDefault` | src/yyr4_linux_control/transport/codebook.py:68-117 | the default codebook tabulates the default entries and has only plain and shifted function keys |
| `Codebook.DefaultIsTable` | src/yyr4_linux_control/transport/codebook.py:68-117 | the default entries are 24 rows written out: key, shift, identifier, vendor name, kind and number |
| `Codebook.DefaultLookups` | src/yyr4_linux_control/transport/codebook.py:53-66 | the default book leads each of those keys to its control, and back |
| `TransportParser.TransportParser.FeedEvent` | src/yyr4_linux_control/transport/parser.py:31-96 | the method’s new state and events are those of the decoder function the trace results are about |
| `TransportParser.TransportParser.AdvanceTime` | src/yyr4_linux_control/transport/parser.py:98-104 | the timeout step, suspended while function keys are held |
| `TransportParser.TransportParser.ResetState` | src/yyr4_linux_control/transport/parser.py:106-127 | releases everything held, in order, and clears the state |
| `TransportTrace.RunPairs` | src/yyr4_linux_control/transport/parser.py:31-127 | over any feeds and resets, presses and releases of each control alternate, the unanswered presses are exactly the held controls, and every held control has a code |
| `TransportTrace.ReleasesInOrder` | src/yyr4_linux_control/transport/parser.py:106-127 | a reset releases the held controls in the order they were pressed, at its time, as synthetic |
| `TransportTrace.RunKeepsCodes` | src/yyr4_linux_control/transport/parser.py:63-96 | over all runs a release carries the very code of the press it answers, whatever shift did meanwhile, exactly when the book records the control of every plain or shifted function key with the code that finds it |
| `TransportTrace.TapBreaksCodes` | src/yyr4_linux_control/transport/parser.py:63-96 | any key that violates this breaks the pairing of codes when it is tapped |
| `TransportTrace.ShiftOnlyRecords` | src/yyr4_linux_control/transport/codebook.py:68-117 | a book of plain and shifted function keys, such as the default one, meets it |
| `TransportTrace.PairedAlternates` | src/yyr4_linux_control/transport/parser.py:31-127 | each control’s phases alternate starting with a press, and presses exceed releases by one exactly while it is held |
| `TransportTrace.DecodedHasCode` | src/yyr4_linux_control/transport/parser.py:63-127 | the fallback for a control without a code is unreachable |
| `TransportTrace.ShiftMatchesHistory` | src/yyr4_linux_control/transport/parser.py:42-64 | the shift flag, its time and the held keys are those of the accepted history |
| `TransportTrace.ShiftAttribution` | src/yyr4_linux_control/transport/parser.py:42-104 | a press carries the shift modifier exactly when the latest shift event is a press and no later accepted event, this one included, came too late while nothing was held |
| `TransportCounters.CountersMatchHistory` | src/yyr4_linux_control/transport/parser.py:31-104 | over any run each counter is the number of inputs of its class, errors are their sum, and what is emitted is what decodes |
| `TransportCounters.FeedEmits` | src/yyr4_linux_control/transport/parser.py:31-96 | what one event emits: a press the control its key and the shift in force lead to, a release the control its key was decoded to, with source, time and code |
| `ObservationPipeline.ObservationPipeline.Observe` | src/yyr4_linux_control/observation/pipeline.py:81-205 | what is yielded, how it ends and every counter of one observation, for each way it can start, stop, be aborted between releases, and fail to close |
| `ObservationPipeline.ObservationPipeline.Close` | src/yyr4_linux_control/observation/pipeline.py:67-79 | which states closing moves, and that each call is counted |
| `ObservationPipeline.OutcomeTable` | src/yyr4_linux_control/observation/pipeline.py:112-205 | which of the four outcomes of reading it is, by the ending, the cut and the close |
| `ObservationPipeline.CountersTable` | src/yyr4_linux_control/observation/pipeline.py:112-205 | what each counter of reading and stopping counts, of the events read and yielded |
| `ObservationPipeline.StartTable` | src/yyr4_linux_control/observation/pipeline.py:81-108 | and of starting |
| `ObservationPipeline.CompleteRun` | src/yyr4_linux_control/observation/pipeline.py:112-186 | a run to end of file or an input error yields non-decreasing times, synthetic releases strictly after everything else, and equally many presses and releases per control |
| `ObservationPipeline.CutRun` | src/yyr4_linux_control/observation/pipeline.py:112-186 | however a run is cut short, what was yielded is the beginning of what the complete run yields, by so many events |
| `ObservationPipeline.AbortedRun` | src/yyr4_linux_control/observation/pipeline.py:150-186 | the dropped-release counter grows by one per control still held, that is per unanswered press, and only when aborted while reading |
| `ObservationPipeline.ReleasesAccounted` | src/yyr4_linux_control/observation/pipeline.py:112-186 | every held control is released or counted as dropped exactly when the run is not cut before its last release; cut after k releases, the others are neither |
| `ObservationPipeline.ReleaseNeitherYieldedNorCounted` | src/yyr4_linux_control/observation/pipeline.py:139-160 | two keys pressed, end of file, the consumer gone at the first release: the other release is neither yielded nor counted |
| `EvdevAdapter.StampsClosedForm` | src/yyr4_linux_control/input/evdev_adapter.py:158-171 | the k-th stamp is the maximum of k and every reading plus its distance, so stamps strictly increase whatever the clock does |
| `EvdevAdapter.EvdevInputAdapter.ReadEvents` | src/yyr4_linux_control/input/evdev_adapter.py:110-175 | a reader whose devices do not open emits nothing; otherwise which events are emitted with which stamps, what every counter counts, and where and how the loop ends: all readers done, a read failure, cancelled while waiting, or waiting |
| `EvdevAdapter.ReadUntilKeys` | src/yyr4_linux_control/input/evdev_adapter.py:133-171 | of whatever is read: one event for each key item with a name, whatever its value, in order, with its source, name, value and stamp, and no others; the counters of what is ignored |
| `EvdevAdapter.EvdevInputAdapter.Start` | src/yyr4_linux_control/input/evdev_adapter.py:85-108 | which devices are held open: a mouse that does not open closes the adapter for good, a keyboard that does not leaves it as it was |
| `EvdevAdapter.EvdevInputAdapter.Close` | src/yyr4_linux_control/input/evdev_adapter.py:177-191 | closing is counted once, and no device stays open |
| `EvdevAdapter.NoRegressions` | src/yyr4_linux_control/transport/parser.py:35-42 | a fresh decoder rejects none of the adapter’s events for its time |
| `DraftModel.BaseNeverChanges` | src/yyr4_linux_control/configurator/draft.py:55-71 | over any edits the base is the loaded configuration, and the draft is dirty exactly when an edit was counted |
| `DraftModel.DraftStaysRooted` | src/yyr4_linux_control/configurator/draft.py:139-482 | over any edits the default profile exists and every profile has a layer |
| `DraftModel.LoadedDraftStaysRooted` | src/yyr4_linux_control/configurator/draft.py:55-71 | the same over any edits of a configuration that was loaded |
| `DraftModel.EditKeepsProfilesClosed` | src/yyr4_linux_control/configurator/draft.py:165-446 | whatever layer references do, every edit keeps the profile references resolving, except setting an action, which does exactly when its own profile reference resolves |
| `DraftModel.EditKeepsLayerTargets` | src/yyr4_linux_control/configurator/draft.py:165-446 | profile by profile, whatever every other reference does, every edit keeps the layer references of a profile resolving, except setting an action in it, which does exactly when its own layer reference resolves |
| `DraftModel.EditKeepsLayersClosed` | src/yyr4_linux_control/configurator/draft.py:165-446 | the same for the layer references of all profiles |
| `DraftModel.EditKeepsClosed` | src/yyr4_linux_control/configurator/draft.py:165-446 | both kinds of reference at once |
| `DraftModel.RunKeepsProfilesClosed` | src/yyr4_linux_control/configurator/draft.py:165-446 | over any edits, the profile references resolve at every moment exactly when each action set refers to no profile or to one that exists at its moment, whatever the layer references do |
| `DraftModel.RunKeepsLayersClosed` | src/yyr4_linux_control/configurator/draft.py:165-446 | likewise for the layer references, whatever the profile references do |
| `DraftModel.RunKeepsClosed` | src/yyr4_linux_control/configurator/draft.py:165-446 | in particular after the run, each kind of reference on its own |
| `DraftModel.HalvesIndependent` | src/yyr4_linux_control/control/config.py:236-245 | a draft with only one kind of dangling reference, of each kind |
| `DraftModel.GeneralIsKept` | src/yyr4_linux_control/configurator/draft.py:303-393 | every edit keeps the general layers except renaming one |
| `DraftModel.GeneralIsLost` | src/yyr4_linux_control/configurator/draft.py:303-348 | renaming the general layer is accepted and loses it |
| `DraftModel.RenameProfileBack` | src/yyr4_linux_control/configurator/draft.py:165-207 | renaming a profile there and back restores the configuration exactly when nothing referred to the new name |
| `DraftModel.RenameLayerBack` | src/yyr4_linux_control/configurator/draft.py:303-348 | likewise for a layer, where the initial layer must not carry the new name and the profile’s own identifier must agree with its key |
| `DraftModel.RenamesThatStay` | src/yyr4_linux_control/configurator/draft.py:165-348 | a configuration for each way a rename there and back does not restore: a dangling reference to the new profile or layer name, the new name as default profile or initial layer, an identifier left by an earlier rename |
| `EditEffects.EditAccepted` | src/yyr4_linux_control/configurator/draft.py:139-482 | when each of the ten edits is refused, has nothing to do, or takes effect, said of the mappings a reader can look up |
| `EditEffects.EditHasEffect` | src/yyr4_linux_control/configurator/draft.py:139-482 | what each edit that takes effect changes, and that every other mapping, layer, profile and setting is as before |
| `EditEffects.DraftHasEffect` | src/yyr4_linux_control/configurator/draft.py:127-482 | on a draft: the base stays, the edit is counted once, a rename is recorded; any other edit changes nothing |
| `ConfigDraft.DeepCopy` | src/yyr4_linux_control/configurator/draft.py:66 | the copy has the same content in fresh dictionaries, none used twice |
| `ConfigDraft.FixProfiles` | src/yyr4_linux_control/configurator/draft.py:569-576 | in place, every top-level action of every dictionary is fixed, once |
| `ConfigDraft.FixLayers` | src/yyr4_linux_control/configurator/draft.py:578-583 | in place, every top-level action of one profile is fixed, once |
| `ConfigDraft.FindReferences` | src/yyr4_linux_control/configurator/draft.py:586-607 | found exactly when some top-level action is the one searched for |
| `ConfigDraft.ConfigDraft.constructor` | src/yyr4_linux_control/configurator/draft.py:55-71 | a fresh draft whose dictionaries are not the base’s |
| `ConfigDraft.ConfigDraft.AddProfile` | src/yyr4_linux_control/configurator/draft.py:139-163 | on the object graph: the edit’s configuration, flags and records when it takes effect, nothing at all when refused; the base is untouched and its dictionaries stay apart |
| `ConfigDraft.ConfigDraft.RenameProfile` | src/yyr4_linux_control/configurator/draft.py:165-207 | on the object graph: the edit’s configuration, flags and records when it takes effect, nothing at all when refused; the base is untouched and its dictionaries stay apart |
| `ConfigDraft.ConfigDraft.RemoveProfile` | src/yyr4_linux_control/configurator/draft.py:209-248 | on the object graph: the edit’s configuration, flags and records when it takes effect, nothing at all when refused; the base is untouched and its dictionaries stay apart |
| `ConfigDraft.ConfigDraft.SetDefaultProfile` | src/yyr4_linux_control/configurator/draft.py:250-270 | on the object graph: the edit’s configuration, flags and records when it takes effect, nothing at all when refused; the base is untouched and its dictionaries stay apart |
| `ConfigDraft.ConfigDraft.AddLayer` | src/yyr4_linux_control/configurator/draft.py:274-301 | on the object graph: the edit’s configuration, flags and records when it takes effect, nothing at all when refused; the base is untouched and its dictionaries stay apart |
| `ConfigDraft.ConfigDraft.RenameLayer` | src/yyr4_linux_control/configurator/draft.py:303-348 | on the object graph: the edit’s configuration, flags and records when it takes effect, nothing at all when refused; the base is untouched and its dictionaries stay apart |
| `ConfigDraft.ConfigDraft.RemoveLayer` | src/yyr4_linux_control/configurator/draft.py:350-393 | on the object graph: the edit’s configuration, flags and records when it takes effect, nothing at all when refused; the base is untouched and its dictionaries stay apart |
| `ConfigDraft.ConfigDraft.SetInitialLayer` | src/yyr4_linux_control/configurator/draft.py:395-410 | on the object graph: the edit’s configuration, flags and records when it takes effect, nothing at all when refused; the base is untouched and its dictionaries stay apart |
| `ConfigDraft.ConfigDraft.SetAction` | src/yyr4_linux_control/configurator/draft.py:414-446 | on the object graph: the edit’s configuration, flags and records when it takes effect, nothing at all when refused; the base is untouched and its dictionaries stay apart |
| `ConfigDraft.ConfigDraft.ClearAction` | src/yyr4_linux_control/configurator/draft.py:448-482 | on the object graph: the edit’s configuration, flags and records when it takes effect, nothing at all when refused; the base is untouched and its dictionaries stay apart |
| `ConfigDraft.ApplyAll` | src/yyr4_linux_control/configurator/draft.py:139-482 | any sequence of edits on the objects is the run of the edit model, and the base’s object graph still holds what it held |
| `ConfigDiff.DiffConfigs` | src/yyr4_linux_control/configurator/diff.py:56-171 | the loops and front insertions give the changes in order, nothing exactly when nothing differs, and the largest risk |
| `ConfigDiff.SummarizeRisk` | src/yyr4_linux_control/configurator/diff.py:162-164 | HIGH exactly when some change is, MEDIUM exactly when none is HIGH and some is MEDIUM |
| `ConfigDiff.SubControlDiffs` | src/yyr4_linux_control/configurator/diff.py:256-312 | the step loop reports every differing index, in order |
| `ConfigDiff.EmptyExactlyWhenSame` | src/yyr4_linux_control/configurator/diff.py:56-171 | nothing is reported exactly when default profile, initial layer and all maps are the same |
| `ConfigDiff.ReportedExactly` | src/yyr4_linux_control/configurator/diff.py:56-171 | a change is reported exactly when it is due: which profile, layer, control or step is on which side, with its path, kind and risk |
| `ConfigDiff.ControlReported` | src/yyr4_linux_control/configurator/diff.py:114-138 | what one control’s two mappings give rise to, kind by kind |
| `ConfigDiff.StepsReported` | src/yyr4_linux_control/configurator/diff.py:264-292 | a macro step is reported added, removed or changed exactly when it is |
| `ConfigDiff.SwapMirrors` | src/yyr4_linux_control/configurator/diff.py:56-171 | swapping the arguments mirrors the report: the mirrored kinds at the same paths, as often |
| `DiffOnce.ReportedOnce` | src/yyr4_linux_control/configurator/diff.py:56-171 | between well-formed configurations a kind is reported at a path once if due there, and otherwise not at all |
| `DiffOrder.DiffInOrder` | src/yyr4_linux_control/configurator/diff.py:56-171 | the initial layer, the default profile, the profiles removed, those added, and the changes inside the others, by name within each |
| `DiffOrder.ProfileInOrder` | src/yyr4_linux_control/configurator/diff.py:84-105 | inside a profile the layers removed, those added, and the changes inside the others, by name within each |
| `DiffOrder.LayerInOrder` | src/yyr4_linux_control/configurator/diff.py:106-138 | inside a layer by control name |
| `DiffOrder.StepsInOrder` | src/yyr4_linux_control/configurator/diff.py:264-292 | inside a control the steps by index |
| `Recovery.RecoveryStore.WriteFile` | src/yyr4_linux_control/configurator/web/session.py:274-279 | writing a file passes through the empty file and every prefix of the data |
| `Recovery.EditorSession.WriteRecovery` | src/yyr4_linux_control/configurator/web/session.py:261-300 | the directory passes through exactly the states of one publication, and nothing happens to a clean draft |
| `Recovery.EditorSession.UpdateDraft` | src/yyr4_linux_control/configurator/web/api.py:32-41 | draft file, sidecar, then the recovery copy, all of the same draft |
| `Recovery.EditorSession.constructor` | src/yyr4_linux_control/configurator/web/session.py:338-392 | a fresh unreviewed session whose sidecar pairs its draft text |
| `Recovery.EditorSession.Edit` | src/yyr4_linux_control/configurator/draft.py:127-129 | a mutation makes the draft dirty and counts once |
| `Recovery.EditorSession.MarkReviewed` | src/yyr4_linux_control/configurator/web/session.py:77-78 | a review stamps the current mutation count, as the stamp model does |
| `Recovery.EditorSession.RefreshBase` | src/yyr4_linux_control/configurator/web/session.py:323-335 | the target reloaded: a clean unreviewed draft of it, a new sidecar, and no recovery |
| `Recovery.ResumeSession` | src/yyr4_linux_control/configurator/web/session.py:452-510 | the outcome of the checks; a session only if the source loads and has the digest of the manifest, and then for a restored one dirty, unreviewed, with the recovered files |
| `Recovery.RestoresExactly` | src/yyr4_linux_control/configurator/draft.py:73-113 | when exactly a directory restores: draft text, sidecar and source all those of the last completed publication |
| `Recovery.ResumedSourceUnchanged` | src/yyr4_linux_control/configurator/web/session.py:464-477 | a resume that is not refused read a manifest, and the source still loads and has the digest the manifest names |
| `Recovery.ResumeSeesBase` | src/yyr4_linux_control/configurator/web/session.py:452-510 | over any run of a session, a resume is not refused only if the source’s canonical text is still that of the session’s base |
| `Recovery.ChangedSourceIsRefused` | src/yyr4_linux_control/configurator/web/session.py:464-477 | a source replaced by another configuration that loads is refused |
| `Recovery.RunRecoverable` | src/yyr4_linux_control/configurator/web/session.py:261-300 | over any run, a manifest that reads at all is that of the last completed publication |
| `Recovery.PublicationOrder` | src/yyr4_linux_control/configurator/web/session.py:261-300 | draft, sidecar and manifest one after the other, each truncated and then growing; the manifest last |
| `Recovery.ResumeIsOnePublication` | src/yyr4_linux_control/configurator/web/session.py:452-510 | after any run of publications, each cut at any state, and of interrupted discards, resuming is refused or restores text and count of the last completed publication, never a mixed pair |
| `Recovery.UnrestoredExactly` | src/yyr4_linux_control/configurator/web/session.py:452-510 | a resume gives a fresh, unrestored session exactly when a valid manifest for this source and sidecar digest is there and the draft is not |
| `Recovery.InterruptedDiscard` | src/yyr4_linux_control/configurator/web/session.py:302-306 | a completed publication, then a discard that stops once the draft is gone, reaches that state |
| `Recovery.RestoredConfig` | src/yyr4_linux_control/configurator/web/session.py:452-510 | what is restored is the normal form of the configuration that was being edited |
| `Recovery.CompletedCanResume` | src/yyr4_linux_control/configurator/web/session.py:452-510 | a completed publication of an up-to-date session can be resumed, exactly when its text loads and the source is unchanged |
| `Recovery.CompletedResumesOnBase` | src/yyr4_linux_control/configurator/web/session.py:452-510 | in particular exactly when the text loads and the source has the canonical text of the base |
| `Recovery.StampMatchesHistory` | src/yyr4_linux_control/configurator/web/session.py:73-82 | reviewed exactly when a review happened and nothing since changed, restored or refreshed the draft; the session’s methods are the steps of this history |
| `SaveProtocol.SaveDraft` | src/yyr4_linux_control/configurator/save.py:38-137 | alone: the exact result and files, every state having the old target or the new text with its backup; with others acting: a new file replaces nothing, a replacement follows a matching digest check, and it replaces the expected bytes exactly when the one act of the others after that check keeps the target’s digest; the backup holds the target as it was when copied, and the expected bytes exactly when the two acts since the first check keep the digest |
| `SaveProtocol.SavedAloneDoes` | src/yyr4_linux_control/configurator/save.py:38-137 | that exact result: when each outcome is reached, and what target, backup and other files then hold |
| `SaveProtocol.Prepare` | src/yyr4_linux_control/configurator/save.py:57-90 | the digest check, then an exclusive backup, which holds what the target held when it was copied |
| `SaveProtocol.TakeBackup` | src/yyr4_linux_control/configurator/save.py:68-90 | an existing backup is never overwritten, and only the backup’s own name changes |
| `SaveProtocol.Publish` | src/yyr4_linux_control/configurator/save.py:92-118 | staging and installing keep every state safe, and install exactly when the target is as expected |
| `SaveProtocol.InstallNew` | src/yyr4_linux_control/configurator/save.py:103-109 | the link installs exactly when the target does not exist at that moment |
| `SaveProtocol.InstallOver` | src/yyr4_linux_control/configurator/save.py:110-116 | the replacement happens exactly when the last digest check matches, and the bytes replaced still have that digest exactly when the act of the others in between keeps it |
| `SaveProtocol.LostUpdate` | src/yyr4_linux_control/configurator/save.py:110-116 | what another process writes between the last check and the replacement is lost, and the save reports a verified success |
| `SaveProtocol.RestoreBackup` | src/yyr4_linux_control/configurator/save.py:140-185 | alone: the exact result and files, every state having the old target or the backup’s complete bytes; with others acting: the target is touched only by the last change, after one matching digest check |
| `SaveProtocol.RestoredAloneDoes` | src/yyr4_linux_control/configurator/save.py:140-185 | that exact result: when each outcome is reached, and what target, copy and other files then hold |
| `SaveProtocol.RestoreLosesOnlyToOthers` | src/yyr4_linux_control/configurator/save.py:140-185 | if a restore replaces bytes it never checked, another process changed the target in between |
| `SaveProtocol.OneActDecides` | src/yyr4_linux_control/configurator/save.py:140-185 | when at most one act of the others in that window touches the target, the checked bytes are replaced exactly when that act keeps the digest |
| `SaveProtocol.RestoreLosesUpdate` | src/yyr4_linux_control/configurator/save.py:155-173 | what another process writes between the check and the replacement is lost, and the restore reports success |
| `SaveProtocol.BackupRestoresOriginal` | src/yyr4_linux_control/configurator/save.py:38-185 | a save with a backup, then a restore of it, gives the original bytes exactly when they load as a configuration |
| `DeviceDiscovery.PairUp` | src/yyr4_linux_control/device/discovery.py:128-147 | the first keyboard and mouse of a group, and ambiguous exactly when there are two of one or something is both |
| `DeviceDiscovery.GroupRecords` | src/yyr4_linux_control/device/discovery.py:98-124 | the groups by parent, the parents in the order of their first matched record, and the counters of matched and rejected records |
| `DeviceDiscovery.DivideGroups` | src/yyr4_linux_control/device/discovery.py:126-210 | the identities are those of the complete groups, each once, in the order of the groups; and the counters of the other groups |
| `DeviceDiscovery.YYR4DeviceDiscovery.DiscoverAll` | src/yyr4_linux_control/device/discovery.py:87-222 | the identities of the complete groups, each once, by first appearance, and every counter; a refused identity leaves the previous diagnostics |
| `DeviceDiscovery.YYR4DeviceDiscovery.SelectSingle` | src/yyr4_linux_control/device/discovery.py:224-237 | which identity or failure the groups call for |
| `DeviceDiscovery.OrderDoesNotMatter` | src/yyr4_linux_control/device/discovery.py:87-237 | the same identity or the same failure for every ordering of the records |
| `DeviceDiscovery.FoundExactlyWhen` | src/yyr4_linux_control/device/discovery.py:224-237 | a device is found exactly when one group is complete and none is ambiguous |
| `DeviceDiscovery.FoundIsThePair` | src/yyr4_linux_control/device/identity.py:47-81 | the identity found is the only keyboard and the only mouse of one USB parent, on different nodes |
| `DeviceDiscovery.FoundOffProperties` | src/yyr4_linux_control/device/discovery.py:98-210 | the same off the properties: the only keyboard and the only mouse among the keypad records of one parent, each described with its own stable path |
| `DeviceDiscovery.MatchesAre` | src/yyr4_linux_control/device/discovery.py:101-124 | which records are kept, and why another one is not, off the properties |
| `DeviceDiscovery.FirstLinkIsWanted` | src/yyr4_linux_control/device/discovery.py:161-172 | a search returns the first wanted link, or nothing exactly when there is none |
| `DeviceDiscovery.StablePathPrefers` | src/yyr4_linux_control/device/discovery.py:161-172 | the first by-id link for the role, without one the first by-path link for it, without one the first by-path event link for no role |
| `DeviceDiscovery.LinkKindsAre` | src/yyr4_linux_control/device/discovery.py:161-172 | what makes a link a by-id, a by-path or a fallback one, as words in it |
| `DeviceDiscovery.GroupsPartition` | src/yyr4_linux_control/device/discovery.py:126-220 | every group is counted once, as complete, incomplete or ambiguous |
| `DeviceDiscovery.RecordsPartition` | src/yyr4_linux_control/device/discovery.py:101-124 | every USB record is counted once, as matched or rejected |

## Left out

- Which error is raised, and the messages: refusal is one value per operation, except where the table
  names the outcomes.
- TOML beyond what the printer emits: comments, quoted keys, table headers, multi-line strings, floats,
  dates, digit separators and the reader’s integer size limit; lone surrogates in strings.
- Values of a type the configuration parser does not declare for a field: a boolean where an integer is
  declared is read as 0 or 1 and prints as such, while Python prints `True`; hotkey keys that are not
  strings are refused, while Python lets them through. NaN and infinite numbers in specs.
- Profile and layer dictionaries of a draft are values: only the control dictionaries are changed in
  place. A draft starts from a schema-2 configuration whose dictionaries are each used once, as loading builds it.
- The time a context change is stamped with, and a missing backend for runtime actions.
- Reconnecting, back-off and the daemon’s state labels; whether every reload request is answered; the
  synchronisation of tasks beyond atomic steps. `DaemonRuntime` has no event in flight between turns;
  the step system has.
- The pipeline’s handlers for exceptions of the decoder: the decoder as modelled raises none.
- Enumerating input devices, the tasks that fill the adapter’s queue with their error counter, closing the
  adapter from another task while it waits, and key-name resolution, which is given with each reading.
- The modifier timeout is compared in whole nanoseconds; the source divides to a float first.
- Manifest fields that resuming does not read; file modes, symlink checks, directory syncing and
  reordered writes. SHA-256 is any collision-free function, and JSON any format that reads back and does
  not read when cut short.
- SaveProtocol.SaveDraft: other processes are taken to leave this save’s own temporary and backup names alone;
  they may do anything to every other file, the target included, before every operation.
- Failing file operations other than the refusals modelled: every state is covered, so a failure is a cut.
- Texts of differences, the unified text diff and the filtering of renamed entries.
- Web server, user interface, sockets, signals and command lines.
