/** Actions as JSON objects (`configurator/action_spec.py`): printing an action to a spec,
    parsing a spec, and how the two, and the configuration parser, fit together. */
module ActionSpec {
  import opened Wrappers
  import opened ControlModel
  import opened Toml
  import opened ConfigParser

  const MAX_SPEC_DEPTH := 10

  // ---- Printing ----

  function StrItems(ss: seq<string>): (r: seq<Value>)
    ensures |r| == |ss|
  {
    if ss == [] then [] else [Str(ss[0])] + StrItems(ss[1..])
  }

  function Object(m: Entries): Value { Table(m, true) }

  /** `action_to_spec`; a timeout of zero is falsy, hence not printed. */
  function ActionToSpec(a: Action): Value
    decreases a, 1
  {
    match a
    case Hotkey(keys) => Object(map["type" := Str("hotkey"), "keys" := Arr(StrItems(keys))])
    case Text(value) => Object(map["type" := Str("text"), "value" := Str(value)])
    case Command(argv, timeout) =>
      var m: Entries := map["type" := Str("command"), "argv" := Arr(StrItems(argv))];
      Object(if timeout.Some? && timeout.value != 0 then m["timeout_seconds" := Int(timeout.value)] else m)
    case Delay(ms) => Object(map["type" := Str("delay"), "milliseconds" := Int(ms)])
    case Macro(steps) => Object(map["type" := Str("macro"), "steps" := Arr(StepSpecs(steps))])
    case NoOp => Object(map["type" := Str("noop")])
    case DebugLog(message) => Object(map["type" := Str("debug_log"), "message" := Str(message)])
    case SetLayer(layer) => Object(map["type" := Str("set_layer"), "layer" := Str(layer)])
    case NextLayer => Object(map["type" := Str("next_layer")])
    case PreviousLayer => Object(map["type" := Str("previous_layer")])
    case SetProfile(profile) => Object(map["type" := Str("set_profile"), "profile" := Str(profile)])
  }

  function StepSpecs(steps: seq<Action>): (r: seq<Value>)
    ensures |r| == |steps|
    decreases steps, 0
  {
    if steps == [] then [] else [ActionToSpec(steps[0])] + StepSpecs(steps[1..])
  }

  // ---- Parsing ----

  /** `_ALLOWED_FIELDS.get(kind, set())` */
  function AllowedFields(kind: string): set<string> {
    if kind == "hotkey" then {"type", "keys"}
    else if kind == "text" then {"type", "value"}
    else if kind == "command" then {"type", "argv", "timeout_seconds"}
    else if kind == "delay" then {"type", "milliseconds"}
    else if kind == "macro" then {"type", "steps"}
    else if kind == "debug_log" then {"type", "message"}
    else if kind == "set_layer" then {"type", "layer"}
    else if kind == "set_profile" then {"type", "profile"}
    else if kind in {"noop", "next_layer", "previous_layer"} then {"type"}
    else {}
  }

  predicate IsNumber(v: Value) { v.Int? || v.Float? || v.Bool? }

  /** The number a JSON number or boolean stands for. */
  function NumberValue(v: Value): real
    requires IsNumber(v)
  {
    match v
    case Int(n) => n as real
    case Float(r) => r
    case Bool(b) => if b then 1.0 else 0.0
  }

  /** Python's `int(x)`: truncation toward zero. */
  function Truncate(r: real): int {
    if r >= 0.0 then r.Floor else -((-r).Floor)
  }

  /** `int(timeout) if timeout else None` */
  function TimeoutOf(v: Value): Option<int>
    requires v.Null? || IsNumber(v)
  {
    if v.Null? || NumberValue(v) == 0.0 then None else Some(Truncate(NumberValue(v)))
  }

  /** `parse_spec` */
  function ParseSpec(v: Value, depth: nat): Option<Action>
    decreases v, 1
  {
    if !v.Table? || !Get(v.entries, "type").Str? then None
    else
      var m := v.entries;
      var kind := Get(m, "type").s;
      if !(m.Keys <= AllowedFields(kind)) then None
      else if kind == "hotkey" then
        if !Get(m, "keys").Arr? then None
        else
          var keys :- StringItems(Get(m, "keys").items);
          if NonEmptyStrings(keys) then Some(Hotkey(keys)) else None
      else if kind == "text" then
        if Get(m, "value").Str? then Some(Text(Get(m, "value").s)) else None
      else if kind == "command" then
        if !Get(m, "argv").Arr? then None
        else
          var argv :- StringItems(Get(m, "argv").items);
          var timeout := Get(m, "timeout_seconds");
          if !NonEmptyStrings(argv) || !(timeout.Null? || IsNumber(timeout)) then None
          else Some(Command(argv, TimeoutOf(timeout)))
      else if kind == "delay" then
        var ms := Get(m, "milliseconds");
        if !IsNumber(ms) || NumberValue(ms) < 0.0 then None else Some(Delay(Truncate(NumberValue(ms))))
      else if kind == "macro" then
        if depth >= MAX_SPEC_DEPTH then None
        else if "steps" in m && m["steps"].Arr? then
          var steps :- ParseStepSpecs(m["steps"].items, depth + 1);
          Some(Macro(steps))
        else None
      else if kind == "noop" then Some(NoOp)
      else if kind == "debug_log" then
        if Get(m, "message").Str? then Some(DebugLog(Get(m, "message").s)) else None
      else if kind == "set_layer" then
        if Get(m, "layer").Str? && IsLayerId(Get(m, "layer").s) then Some(SetLayer(Get(m, "layer").s)) else None
      else if kind == "next_layer" then Some(NextLayer)
      else if kind == "previous_layer" then Some(PreviousLayer)
      else
        if Get(m, "profile").Str? && IsProfileId(Get(m, "profile").s) then Some(SetProfile(Get(m, "profile").s)) else None
  }

  function ParseStepSpecs(items: seq<Value>, depth: nat): Option<seq<Action>>
    decreases items, 0
  {
    if items == [] then Some([])
    else
      var first :- ParseSpec(items[0], depth);
      var rest :- ParseStepSpecs(items[1..], depth);
      Some([first] + rest)
  }

  /** The list-building loop of `_parse_macro`. */
  method BuildStepSpecs(items: seq<Value>, depth: nat) returns (r: Option<seq<Action>>)
    ensures r == ParseStepSpecs(items, depth)
  {
    var parsed := [];
    assert items[0..] == items;
    for i := 0 to |items|
      invariant ParseStepSpecs(items[i..], depth).None? ==> ParseStepSpecs(items, depth).None?
      invariant ParseStepSpecs(items[i..], depth).Some? ==>
                  ParseStepSpecs(items, depth).Some? &&
                  ParseStepSpecs(items, depth).value == parsed + ParseStepSpecs(items[i..], depth).value
    {
      var step := ParseSpec(items[i], depth);
      assert items[i..][0] == items[i] && items[i..][1..] == items[i + 1..];
      if step.None? { return None; }
      ghost var rest := ParseStepSpecs(items[i + 1..], depth);
      assert rest.Some? ==> parsed + ([step.value] + rest.value) == parsed + [step.value] + rest.value;
      parsed := parsed + [step.value];
    }
    assert items[|items|..] == [] && parsed + [] == parsed;
    r := Some(parsed);
  }

  // ---- What printing keeps ----

  /** The action that survives printing: every timeout of zero has become no timeout. */
  function NormalAction(a: Action): Action
    decreases a, 1
  {
    match a
    case Command(argv, Some(t)) => Command(argv, if t == 0 then None else Some(t))
    case Macro(steps) => Macro(NormalSteps(steps))
    case _ => a
  }

  function NormalSteps(steps: seq<Action>): (r: seq<Action>)
    ensures |r| == |steps|
    decreases steps, 0
  {
    if steps == [] then [] else [NormalAction(steps[0])] + NormalSteps(steps[1..])
  }

  predicate NoZeroTimeout(a: Action) {
    match a
    case Command(_, Some(t)) => t != 0
    case Macro(steps) => forall s :: s in steps ==> NoZeroTimeout(s)
    case _ => true
  }

  lemma {:induction false} NormalActionFixed(a: Action)
    ensures NormalAction(a) == a <==> NoZeroTimeout(a)
    decreases a, 1
  {
    if a.Macro? { NormalStepsFixed(a.steps); }
  }

  lemma {:induction false} NormalStepsFixed(steps: seq<Action>)
    ensures NormalSteps(steps) == steps <==> forall s :: s in steps ==> NoZeroTimeout(s)
    decreases steps, 0
  {
    if steps != [] {
      NormalActionFixed(steps[0]);
      NormalStepsFixed(steps[1..]);
      assert steps == [steps[0]] + steps[1..];
    }
  }

  /** Printing sees nothing but the normal form, and normalising twice is normalising once. */
  lemma {:induction false} NormalActionPrints(a: Action)
    ensures ActionToSpec(NormalAction(a)) == ActionToSpec(a)
    ensures NormalAction(NormalAction(a)) == NormalAction(a)
    ensures WfAction(a) ==> WfAction(NormalAction(a))
    decreases a, 1
  {
    if a.Macro? { NormalStepsPrint(a.steps); }
  }

  lemma {:induction false} NormalStepsPrint(steps: seq<Action>)
    ensures StepSpecs(NormalSteps(steps)) == StepSpecs(steps)
    ensures NormalSteps(NormalSteps(steps)) == NormalSteps(steps)
    ensures (forall s :: s in steps ==> WfAction(s)) ==> forall s :: s in NormalSteps(steps) ==> WfAction(s)
    decreases steps, 0
  {
    if steps != [] {
      NormalActionPrints(steps[0]);
      NormalStepsPrint(steps[1..]);
      assert NormalSteps(steps)[1..] == NormalSteps(steps[1..]);
    }
  }

  lemma {:induction false} StringItemsInverse(ss: seq<string>)
    ensures StringItems(StrItems(ss)) == Some(ss)
  {
    if ss != [] {
      StringItemsInverse(ss[1..]);
      assert StrItems(ss)[1..] == StrItems(ss[1..]);
      assert ss == [ss[0]] + ss[1..];
    }
  }

  /** The configuration parser reads back the normal form of every well-formed action. */
  lemma {:induction false} ParseActionInverse(a: Action)
    requires WfAction(a)
    ensures ParseAction(ActionToSpec(a), 2) == Some(NormalAction(a))
    decreases a, 1
  {
    match a {
      case Hotkey(keys) => StringItemsInverse(keys);
      case Command(argv, _) => StringItemsInverse(argv);
      case Macro(steps) => ParseStepsInverse(steps);
      case _ =>
    }
  }

  lemma {:induction false} ParseStepsInverse(steps: seq<Action>)
    requires forall s :: s in steps ==> WfAction(s)
    ensures ParseSteps(StepSpecs(steps), 2) == Some(NormalSteps(steps))
    decreases steps, 0
  {
    if steps != [] {
      ParseActionInverse(steps[0]);
      ParseStepsInverse(steps[1..]);
      assert StepSpecs(steps)[1..] == StepSpecs(steps[1..]);
    }
  }

  // ---- Specs ----

  /** The actions a spec at nesting depth `depth` can denote. */
  predicate SpecAction(a: Action, depth: nat) {
    match a
    case Macro(steps) => depth < MAX_SPEC_DEPTH && forall s :: s in steps ==> SpecAction(s, depth + 1)
    case SetLayer(layer) => IsLayerId(layer)
    case SetProfile(profile) => IsProfileId(profile)
    case _ => WfAction(a)
  }

  lemma {:induction false} ParseSpecSound(v: Value, depth: nat)
    requires ParseSpec(v, depth).Some?
    ensures SpecAction(ParseSpec(v, depth).value, depth)
    decreases v, 1
  {
    if v.entries["type"] == Str("macro") {
      ParseStepSpecsSound(v.entries["steps"].items, depth + 1);
    }
  }

  lemma {:induction false} ParseStepSpecsSound(items: seq<Value>, depth: nat)
    requires ParseStepSpecs(items, depth).Some?
    ensures forall s :: s in ParseStepSpecs(items, depth).value ==> SpecAction(s, depth)
    decreases items, 0
  {
    if items != [] {
      ParseSpecSound(items[0], depth);
      ParseStepSpecsSound(items[1..], depth);
    }
  }

  /** A printed action parses as a spec exactly when it is one a spec can denote, and then to its
      normal form. */
  lemma {:induction false} ParseSpecInverse(a: Action, depth: nat)
    requires WfAction(a)
    ensures ParseSpec(ActionToSpec(a), depth).Some? <==> SpecAction(a, depth)
    ensures SpecAction(a, depth) ==> ParseSpec(ActionToSpec(a), depth) == Some(NormalAction(a))
    decreases a, 1
  {
    if a.Macro? {
      ParseStepSpecsInverse(a.steps, depth + 1);
    } else {
      ParseLeafInverse(a, depth);
    }
  }

  lemma ParseLeafInverse(a: Action, depth: nat)
    requires WfAction(a) && !a.Macro?
    ensures ParseSpec(ActionToSpec(a), depth) == if SpecAction(a, depth) then Some(NormalAction(a)) else None
  {
    match a {
      case Hotkey(keys) => StringItemsInverse(keys);
      case Command(argv, _) => StringItemsInverse(argv);
      case _ =>
    }
  }

  lemma {:induction false} ParseStepSpecsInverse(steps: seq<Action>, depth: nat)
    requires forall s :: s in steps ==> WfAction(s)
    ensures ParseStepSpecs(StepSpecs(steps), depth).Some? <==> forall s :: s in steps ==> SpecAction(s, depth)
    ensures (forall s :: s in steps ==> SpecAction(s, depth)) ==>
              ParseStepSpecs(StepSpecs(steps), depth) == Some(NormalSteps(steps))
    decreases steps, 0
  {
    if steps != [] {
      ParseSpecInverse(steps[0], depth);
      ParseStepSpecsInverse(steps[1..], depth);
      assert StepSpecs(steps)[1..] == StepSpecs(steps[1..]);
      assert steps == [steps[0]] + steps[1..];
    }
  }

  // ---- Round trips of accepted specs ----

  /** No timeout in the spec is a fraction between minus one and one. */
  predicate WholeTimeouts(v: Value) {
    match v
    case Arr(items) => forall i :: i in items ==> WholeTimeouts(i)
    case Table(m, _) =>
      && ("timeout_seconds" in m && IsNumber(m["timeout_seconds"]) ==>
            var t := NumberValue(m["timeout_seconds"]);
            t <= -1.0 || t == 0.0 || 1.0 <= t)
      && ("steps" in m ==> WholeTimeouts(m["steps"]))
    case _ => true
  }

  lemma {:induction false} ZeroTimeoutOrigin(v: Value, depth: nat)
    requires ParseSpec(v, depth).Some?
    ensures NoZeroTimeout(ParseSpec(v, depth).value) <==> WholeTimeouts(v)
    decreases v, 1
  {
    var m := v.entries;
    if m["type"] == Str("macro") {
      ZeroTimeoutOrigins(m["steps"].items, depth + 1);
    } else if m["type"] == Str("command") && "timeout_seconds" in m && IsNumber(m["timeout_seconds"]) {
      var t := NumberValue(m["timeout_seconds"]);
      assert Truncate(t) == 0 <==> -1.0 < t < 1.0;
    }
  }

  lemma {:induction false} ZeroTimeoutOrigins(items: seq<Value>, depth: nat)
    requires ParseStepSpecs(items, depth).Some?
    ensures (forall s :: s in ParseStepSpecs(items, depth).value ==> NoZeroTimeout(s))
       <==> forall i :: i in items ==> WholeTimeouts(i)
    decreases items, 0
  {
    if items != [] {
      ZeroTimeoutOrigin(items[0], depth);
      ZeroTimeoutOrigins(items[1..], depth);
      var actions := ParseStepSpecs(items, depth).value;
      assert actions == [actions[0]] + actions[1..];
      assert items == [items[0]] + items[1..];
    }
  }

  /** An accepted spec, printed and parsed again by either parser, gives the same action exactly
      when it has no fractional timeout that truncates to zero. */
  lemma SpecRoundTrip(v: Value, depth: nat)
    requires ParseSpec(v, depth).Some?
    ensures var a := ParseSpec(v, depth).value;
            && (ParseSpec(ActionToSpec(a), depth) == Some(a) <==> WholeTimeouts(v))
            && (ParseAction(ActionToSpec(a), 2) == Some(a) <==> WholeTimeouts(v))
  {
    var a := ParseSpec(v, depth).value;
    ParseSpecSound(v, depth);
    SpecActionWf(a, depth);
    ParseSpecInverse(a, depth);
    ParseActionInverse(a);
    NormalActionFixed(a);
    ZeroTimeoutOrigin(v, depth);
  }

  lemma {:induction false} SpecActionWf(a: Action, depth: nat)
    requires SpecAction(a, depth)
    ensures WfAction(a)
  {
    if a.Macro? {
      forall s | s in a.steps ensures WfAction(s) { SpecActionWf(s, depth + 1); }
    }
  }

  /** The failing family is inhabited: half a second is accepted, kept as zero, and lost. */
  lemma FractionalTimeoutIsLost()
    ensures var v := Object(map["type" := Str("command"), "argv" := Arr([Str("ls")]), "timeout_seconds" := Float(0.5)]);
            && ParseSpec(v, 0) == Some(Command(["ls"], Some(0)))
            && ParseSpec(ActionToSpec(Command(["ls"], Some(0))), 0) == Some(Command(["ls"], None))
  {
    assert StrItems(["ls"]) == [Str("ls")];
    StringItemsInverse(["ls"]);
    var a := Command(["ls"], Some(0));
    ParseSpecInverse(a, 0);
  }
}
