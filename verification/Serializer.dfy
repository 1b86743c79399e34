/** The canonical printer (`configurator/serializer.py`): the text of a configuration as a
    function, and the source's loops proved to produce that text. */
module Serializer {
  import opened Wrappers
  import opened Text
  import opened ControlModel

  // ---- Strings ----

  function EscapeChar(c: char): string {
    if c == '"' then "\\\""
    else if c == '\\' then "\\\\"
    else if c == '\U{8}' then "\\b"
    else if c == '\t' then "\\t"
    else if c == '\n' then "\\n"
    else if c == '\U{C}' then "\\f"
    else if c == '\r' then "\\r"
    else if c < ' ' || c == '\U{7F}' then
      "\\u00" + [HexDigit(c as int / 16), HexDigit(c as int % 16)]
    else [c]
  }

  function Escape(s: string): string {
    if s == "" then "" else EscapeChar(s[0]) + Escape(s[1..])
  }

  function TomlStr(s: string): string { "\"" + Escape(s) + "\"" }

  lemma {:induction false} EscapeSnoc(s: string, c: char)
    ensures Escape(s + [c]) == Escape(s) + EscapeChar(c)
  {
    if s == "" {
      assert (s + [c])[1..] == "";
    } else {
      EscapeSnoc(s[1..], c);
      assert (s + [c])[1..] == s[1..] + [c];
      assert EscapeChar(s[0]) + (Escape(s[1..]) + EscapeChar(c))
          == EscapeChar(s[0]) + Escape(s[1..]) + EscapeChar(c);
    }
  }

  /** `_toml_str`: one escaped part per character, in order, between quotes. */
  method PrintString(s: string) returns (r: string)
    ensures r == TomlStr(s)
  {
    var parts := "";
    for i := 0 to |s|
      invariant parts == Escape(s[..i])
    {
      EscapeSnoc(s[..i], s[i]);
      assert s[..i + 1] == s[..i] + [s[i]];
      parts := parts + EscapeChar(s[i]);
    }
    assert s[..|s|] == s;
    r := "\"" + parts + "\"";
  }

  function TomlStrParts(ss: seq<string>): (r: seq<string>)
    ensures |r| == |ss|
  {
    if ss == [] then [] else [TomlStr(ss[0])] + TomlStrParts(ss[1..])
  }

  function TomlStrs(ss: seq<string>): string { "[" + Join(TomlStrParts(ss), ", ") + "]" }

  // ---- Actions ----

  function Indent(n: nat): string {
    if n == 0 then "" else "    " + Indent(n - 1)
  }

  function Field(key: string, text: string): string { key + " = " + text }

  function InlineTable(fields: seq<string>): string { "{ " + Join(fields, ", ") + " }" }

  function TypeField(kind: string): string { Field("type", TomlStr(kind)) }

  /** The fields of an action's inline table. */
  function ActionFields(indent: nat, a: Action): seq<string>
    decreases a, 0
  {
    match a
    case Hotkey(keys) => [TypeField("hotkey"), Field("keys", TomlStrs(keys))]
    case Text(value) => [TypeField("text"), Field("value", TomlStr(value))]
    case Command(argv, timeout) => [TypeField("command"), Field("argv", TomlStrs(argv))] + TimeoutFields(timeout)
    case Delay(ms) => [TypeField("delay"), Field("milliseconds", IntText(ms))]
    case Macro(steps) => [TypeField("macro"), Field("steps", EmitSteps(indent, steps))]
    case NoOp => [TypeField("noop")]
    case DebugLog(message) => [TypeField("debug_log"), Field("message", TomlStr(message))]
    case SetLayer(layer) => [TypeField("set_layer"), Field("layer", TomlStr(layer))]
    case NextLayer => [TypeField("next_layer")]
    case PreviousLayer => [TypeField("previous_layer")]
    case SetProfile(profile) => [TypeField("set_profile"), Field("profile", TomlStr(profile))]
  }

  /** `_emit_action` */
  function EmitAction(indent: nat, a: Action): string
    decreases a, 1
  {
    InlineTable(ActionFields(indent, a))
  }

  /** A timeout of zero is falsy, hence not printed. */
  function TimeoutFields(timeout: Option<int>): seq<string> {
    if timeout.Some? && timeout.value != 0 then [Field("timeout_seconds", IntText(timeout.value))] else []
  }

  /** The array of macro steps, one step per line. */
  function EmitSteps(indent: nat, steps: seq<Action>): string
    decreases steps, 1
  {
    "[\n" + Join(EmitStepParts(indent, steps), ",\n") + "\n" + Indent(indent + 1) + "]"
  }

  function EmitStepParts(indent: nat, steps: seq<Action>): (r: seq<string>)
    ensures |r| == |steps|
    decreases steps, 0
  {
    if steps == [] then []
    else [Indent(indent + 2) + EmitAction(indent + 2, steps[0])] + EmitStepParts(indent, steps[1..])
  }

  // ---- Configurations ----

  function Statement(path: seq<string>, text: string): string {
    Join(path, ".") + " = " + text + "\n"
  }

  function ActionPath(p: string, l: string, c: string): seq<string> {
    ["profiles", p, "layers", l, "controls", c, "action"]
  }

  function Line(p: string, l: string, c: string, a: Action): string {
    Statement(ActionPath(p, l, c), EmitAction(0, a))
  }

  /** What one control contributes: its line, or nothing when unmapped. */
  function ControlPrinter(p: string, l: string, controls: map<string, Action>): string -> string {
    c => if c in controls then Line(p, l, c, controls[c]) else ""
  }

  /** The lines of one layer, its controls in the order `cs`. */
  function LayerText(p: string, l: string, controls: map<string, Action>, cs: seq<string>): string {
    ConcatMap(cs, ControlPrinter(p, l, controls))
  }

  function LayerPrinter(p: string, layers: map<string, LayerConfig>, cs: seq<string>): string -> string {
    l => if l in layers then LayerText(p, l, layers[l].controls, cs) else ""
  }

  function ProfileText(p: string, prof: ProfileConfig, cs: seq<string>): string {
    "\n" + ConcatMap(Sorted(prof.layers.Keys), LayerPrinter(p, prof.layers, cs))
  }

  function ProfilePrinter(profiles: map<string, ProfileConfig>, cs: seq<string>): string -> string {
    p => if p in profiles then ProfileText(p, profiles[p], cs) else ""
  }

  function HeaderText(cfg: LayeredControlConfig): string {
    Statement(["schema_version"], IntText(cfg.schemaVersion)) +
    Statement(["default_profile"], TomlStr(cfg.defaultProfile)) +
    Statement(["initial_layer"], TomlStr(cfg.initialLayer)) +
    "\n"
  }

  /** The canonical text. */
  function ConfigText(cfg: LayeredControlConfig): string {
    HeaderText(cfg) + ConcatMap(Sorted(cfg.profiles.Keys), ProfilePrinter(cfg.profiles, CANONICAL_CONTROLS))
  }

  /** `serialize`: nested loops appending to a buffer. */
  method Serialize(cfg: LayeredControlConfig) returns (buf: string)
    ensures buf == ConfigText(cfg)
  {
    var header := PrintHeader(cfg);
    var body := PrintProfiles(cfg.profiles, CANONICAL_CONTROLS);
    buf := header + body;
  }

  method PrintProfiles(profiles: map<string, ProfileConfig>, cs: seq<string>) returns (buf: string)
    ensures buf == ConcatMap(Sorted(profiles.Keys), ProfilePrinter(profiles, cs))
  {
    var ps := Sorted(profiles.Keys);
    ghost var printer := ProfilePrinter(profiles, cs);
    buf := "";
    for i := 0 to |ps|
      invariant buf == ConcatMap(ps[..i], printer)
    {
      var text := PrintProfile(ps[i], profiles[ps[i]], cs);
      ConcatMapSnoc(ps, printer, i);
      buf := buf + text;
    }
    assert ps[..|ps|] == ps;
  }

  method PrintHeader(cfg: LayeredControlConfig) returns (buf: string)
    ensures buf == HeaderText(cfg)
  {
    var default := PrintString(cfg.defaultProfile);
    var initial := PrintString(cfg.initialLayer);
    buf := Statement(["schema_version"], IntText(cfg.schemaVersion));
    buf := buf + Statement(["default_profile"], default);
    buf := buf + Statement(["initial_layer"], initial);
    buf := buf + "\n";
  }

  method PrintProfile(p: string, prof: ProfileConfig, cs: seq<string>) returns (buf: string)
    ensures buf == ProfileText(p, prof, cs)
  {
    var lines := PrintLayers(p, prof.layers, cs);
    buf := "\n" + lines;
  }

  method PrintLayers(p: string, layers: map<string, LayerConfig>, cs: seq<string>) returns (buf: string)
    ensures buf == ConcatMap(Sorted(layers.Keys), LayerPrinter(p, layers, cs))
  {
    var ls := Sorted(layers.Keys);
    ghost var printer := LayerPrinter(p, layers, cs);
    buf := "";
    for i := 0 to |ls|
      invariant buf == ConcatMap(ls[..i], printer)
    {
      var lines := PrintLayer(p, ls[i], layers[ls[i]].controls, cs);
      ConcatMapSnoc(ls, printer, i);
      buf := buf + lines;
    }
    assert ls[..|ls|] == ls;
  }

  method PrintLayer(p: string, l: string, controls: map<string, Action>, cs: seq<string>) returns (buf: string)
    ensures buf == LayerText(p, l, controls, cs)
  {
    ghost var printer := ControlPrinter(p, l, controls);
    buf := "";
    for i := 0 to |cs|
      invariant buf == ConcatMap(cs[..i], printer)
    {
      ConcatMapSnoc(cs, printer, i);
      if cs[i] in controls {
        buf := buf + Line(p, l, cs[i], controls[cs[i]]);
      } else {
        assert buf + "" == buf;
      }
    }
    assert cs[..|cs|] == cs;
  }
}
