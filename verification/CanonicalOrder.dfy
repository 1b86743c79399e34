/** The order of the canonical text (`configurator/serializer.py`): three header lines, then one line
    for each mapped control, by profile, layer and the fixed order of the controls. */
module CanonicalOrder {
  import opened Wrappers
  import opened Text
  import opened ControlModel
  import opened Serializer

  // ---- Parts of a text ----

  ghost predicate Within(text: string, s: string) { exists i: nat :: IsAt(text, i, s) }

  /** Both are in the text, the first one ending before the second begins. */
  ghost predicate Before(text: string, s: string, t: string) {
    exists i: nat, j: nat :: IsAt(text, i, s) && IsAt(text, j, t) && i + |s| <= j
  }

  lemma AtPart(text: string, i: nat, u: string, k: nat, s: string)
    requires IsAt(text, i, u) && IsAt(u, k, s)
    ensures IsAt(text, i + k, s)
  {
    forall n | 0 <= n < |s| ensures text[i + k + n] == s[n] {
      assert text[i..i + |u|][k + n] == u[k + n] && u[k..k + |s|][n] == s[n];
    }
  }

  lemma ConcatAt(a: string, b: string)
    ensures IsAt(a + b, 0, a) && IsAt(a + b, |a|, b)
  {
  }

  lemma WithinWithin(text: string, u: string, s: string)
    requires Within(text, u) && Within(u, s)
    ensures Within(text, s)
  {
    var i: nat :| IsAt(text, i, u);
    var k: nat :| IsAt(u, k, s);
    AtPart(text, i, u, k, s);
  }

  lemma BeforeWithin(text: string, u: string, s: string, t: string)
    requires Within(text, u) && Before(u, s, t)
    ensures Before(text, s, t)
  {
    var i: nat :| IsAt(text, i, u);
    var j: nat, k: nat :| IsAt(u, j, s) && IsAt(u, k, t) && j + |s| <= k;
    AtPart(text, i, u, j, s);
    AtPart(text, i, u, k, t);
  }

  lemma BeforeParts(text: string, u: string, v: string, s: string, t: string)
    requires Before(text, u, v) && Within(u, s) && Within(v, t)
    ensures Before(text, s, t)
  {
    var i: nat, j: nat :| IsAt(text, i, u) && IsAt(text, j, v) && i + |u| <= j;
    var k: nat :| IsAt(u, k, s);
    var m: nat :| IsAt(v, m, t);
    AtPart(text, i, u, k, s);
    AtPart(text, j, v, m, t);
  }

  lemma {:induction false} PieceWithin(xs: seq<string>, f: string -> string, i: nat)
    requires i < |xs|
    ensures Within(ConcatMap(xs, f), f(xs[i]))
    decreases i
  {
    ConcatAt(f(xs[0]), ConcatMap(xs[1..], f));
    if i > 0 {
      PieceWithin(xs[1..], f, i - 1);
      WithinWithin(ConcatMap(xs, f), ConcatMap(xs[1..], f), f(xs[i]));
    }
  }

  lemma {:induction false} PiecesBefore(xs: seq<string>, f: string -> string, i: nat, j: nat)
    requires i < j < |xs|
    ensures Before(ConcatMap(xs, f), f(xs[i]), f(xs[j]))
    decreases i
  {
    var first, rest := f(xs[0]), ConcatMap(xs[1..], f);
    ConcatAt(first, rest);
    if i == 0 {
      PieceWithin(xs[1..], f, j - 1);
      var k: nat :| IsAt(rest, k, f(xs[j]));
      AtPart(first + rest, |first|, rest, k, f(xs[j]));
    } else {
      PiecesBefore(xs[1..], f, i - 1, j - 1);
      BeforeWithin(ConcatMap(xs, f), rest, f(xs[i]), f(xs[j]));
    }
  }

  lemma {:induction false} SortedIndex(names: set<string>, x: string) returns (i: nat)
    requires x in names
    ensures i < |Sorted(names)| && Sorted(names)[i] == x
  {
    i :| 0 <= i < |Sorted(names)| && Sorted(names)[i] == x;
  }

  lemma SortedBefore(names: set<string>, x: string, y: string) returns (i: nat, j: nat)
    requires x in names && y in names && x != y && LexLe(x, y)
    ensures i < j < |Sorted(names)| && Sorted(names)[i] == x && Sorted(names)[j] == y
  {
    i := SortedIndex(names, x);
    j := SortedIndex(names, y);
    SortedIncreases(names);
    if j < i { LexTotal(x, y); }
  }

  // ---- The lines ----

  /** The line of one control, written out. */
  function LineText(p: string, l: string, c: string, a: Action): string {
    ("profiles." + p + ".layers." + l + ".controls." + c + ".action") + " = " + EmitAction(0, a) + "\n"
  }

  lemma LineIs(p: string, l: string, c: string, a: Action)
    ensures Line(p, l, c, a) == LineText(p, l, c, a)
  {
    JoinSeven("profiles", p, "layers", l, "controls", c, "action");
    KeyText(p, l, c);
  }

  lemma KeyText(p: string, l: string, c: string)
    ensures "profiles" + "." + (p + "." + ("layers" + "." + (l + "." + ("controls" + "." + (c + "." + "action")))))
         == "profiles." + p + ".layers." + l + ".controls." + c + ".action"
  {
  }

  lemma JoinCons(a: string, rest: seq<string>)
    requires rest != []
    ensures Join([a] + rest, ".") == a + "." + Join(rest, ".")
  {
    assert ([a] + rest)[1..] == rest;
  }

  lemma JoinSeven(a: string, b: string, c: string, d: string, e: string, f: string, g: string)
    ensures Join([a, b, c, d, e, f, g], ".")
         == a + "." + (b + "." + (c + "." + (d + "." + (e + "." + (f + "." + g)))))
  {
    JoinCons(f, [g]);
    JoinCons(e, [f, g]);
    JoinCons(d, [e, f, g]);
    JoinCons(c, [d, e, f, g]);
    JoinCons(b, [c, d, e, f, g]);
    JoinCons(a, [b, c, d, e, f, g]);
    assert [a] + [b, c, d, e, f, g] == [a, b, c, d, e, f, g] && [b] + [c, d, e, f, g] == [b, c, d, e, f, g];
    assert [c] + [d, e, f, g] == [c, d, e, f, g] && [d] + [e, f, g] == [d, e, f, g];
    assert [e] + [f, g] == [e, f, g] && [f] + [g] == [f, g];
  }

  predicate IsMapped(cfg: LayeredControlConfig, p: string, l: string, c: string, a: Action) {
    && p in cfg.profiles && l in cfg.profiles[p].layers && c in cfg.profiles[p].layers[l].controls
    && cfg.profiles[p].layers[l].controls[c] == a
  }

  predicate Precedes(c: string, d: string) {
    exists i, j :: 0 <= i < j < |CANONICAL_CONTROLS| && CANONICAL_CONTROLS[i] == c && CANONICAL_CONTROLS[j] == d
  }

  lemma LineWithinLayer(cfg: LayeredControlConfig, p: string, l: string, c: string, a: Action)
    requires IsMapped(cfg, p, l, c, a) && IsControl(c)
    ensures Within(LayerText(p, l, cfg.profiles[p].layers[l].controls, CANONICAL_CONTROLS), Line(p, l, c, a))
  {
    var i :| 0 <= i < |CANONICAL_CONTROLS| && CANONICAL_CONTROLS[i] == c;
    PieceWithin(CANONICAL_CONTROLS, ControlPrinter(p, l, cfg.profiles[p].layers[l].controls), i);
  }

  lemma LineWithinLayers(cfg: LayeredControlConfig, p: string, l: string, c: string, a: Action, lines: string)
    requires IsMapped(cfg, p, l, c, a) && IsControl(c)
    requires lines == ConcatMap(Sorted(cfg.profiles[p].layers.Keys), LayerPrinter(p, cfg.profiles[p].layers, CANONICAL_CONTROLS))
    ensures Within(lines, Line(p, l, c, a))
  {
    var layers := cfg.profiles[p].layers;
    var i := SortedIndex(layers.Keys, l);
    PieceWithin(Sorted(layers.Keys), LayerPrinter(p, layers, CANONICAL_CONTROLS), i);
    LineWithinLayer(cfg, p, l, c, a);
    WithinWithin(lines, LayerText(p, l, layers[l].controls, CANONICAL_CONTROLS), Line(p, l, c, a));
  }

  lemma LineWithinProfile(cfg: LayeredControlConfig, p: string, l: string, c: string, a: Action)
    requires IsMapped(cfg, p, l, c, a) && IsControl(c)
    ensures Within(ProfileText(p, cfg.profiles[p], CANONICAL_CONTROLS), Line(p, l, c, a))
  {
    var lines := ConcatMap(Sorted(cfg.profiles[p].layers.Keys), LayerPrinter(p, cfg.profiles[p].layers, CANONICAL_CONTROLS));
    LineWithinLayers(cfg, p, l, c, a, lines);
    ConcatAt("\n", lines);
    WithinWithin(ProfileText(p, cfg.profiles[p], CANONICAL_CONTROLS), lines, Line(p, l, c, a));
  }

  lemma SameLayerOrder(cfg: LayeredControlConfig, p: string, l: string, c: string, a: Action, d: string, b: Action)
    requires IsMapped(cfg, p, l, c, a) && IsMapped(cfg, p, l, d, b) && Precedes(c, d)
    ensures Before(LayerText(p, l, cfg.profiles[p].layers[l].controls, CANONICAL_CONTROLS), Line(p, l, c, a), Line(p, l, d, b))
  {
    var i, j :| 0 <= i < j < |CANONICAL_CONTROLS| && CANONICAL_CONTROLS[i] == c && CANONICAL_CONTROLS[j] == d;
    PiecesBefore(CANONICAL_CONTROLS, ControlPrinter(p, l, cfg.profiles[p].layers[l].controls), i, j);
  }

  /** Within one profile: by layer, then in the order of the controls. */
  lemma SameProfileOrder(cfg: LayeredControlConfig, p: string, l: string, c: string, a: Action, k: string, d: string, b: Action)
    requires IsMapped(cfg, p, l, c, a) && IsMapped(cfg, p, k, d, b) && IsControl(c) && IsControl(d)
    requires (l != k && LexLe(l, k)) || (l == k && Precedes(c, d))
    ensures Before(ProfileText(p, cfg.profiles[p], CANONICAL_CONTROLS), Line(p, l, c, a), Line(p, k, d, b))
  {
    var layers := cfg.profiles[p].layers;
    var printer := LayerPrinter(p, layers, CANONICAL_CONTROLS);
    var lines := ConcatMap(Sorted(layers.Keys), printer);
    if l == k {
      var i := SortedIndex(layers.Keys, l);
      PieceWithin(Sorted(layers.Keys), printer, i);
      SameLayerOrder(cfg, p, l, c, a, d, b);
      BeforeWithin(lines, printer(l), Line(p, l, c, a), Line(p, k, d, b));
    } else {
      var i, j := SortedBefore(layers.Keys, l, k);
      PiecesBefore(Sorted(layers.Keys), printer, i, j);
      LineWithinLayer(cfg, p, l, c, a);
      LineWithinLayer(cfg, p, k, d, b);
      BeforeParts(lines, printer(l), printer(k), Line(p, l, c, a), Line(p, k, d, b));
    }
    ConcatAt("\n", lines);
    BeforeWithin(ProfileText(p, cfg.profiles[p], CANONICAL_CONTROLS), lines, Line(p, l, c, a), Line(p, k, d, b));
  }

  /** Any two mapped controls have their lines in the text, in the order of their profiles, then of
      their layers, then of the controls. */
  lemma LinesInOrder(cfg: LayeredControlConfig, p: string, l: string, c: string, a: Action, q: string, k: string, d: string, b: Action)
    requires IsMapped(cfg, p, l, c, a) && IsMapped(cfg, q, k, d, b) && IsControl(c) && IsControl(d)
    requires || (p != q && LexLe(p, q))
             || (p == q && l != k && LexLe(l, k))
             || (p == q && l == k && Precedes(c, d))
    ensures Before(ConfigText(cfg), LineText(p, l, c, a), LineText(q, k, d, b))
  {
    var printer := ProfilePrinter(cfg.profiles, CANONICAL_CONTROLS);
    var body := ConcatMap(Sorted(cfg.profiles.Keys), printer);
    if p == q {
      var i := SortedIndex(cfg.profiles.Keys, p);
      PieceWithin(Sorted(cfg.profiles.Keys), printer, i);
      SameProfileOrder(cfg, p, l, c, a, k, d, b);
      BeforeWithin(body, printer(p), Line(p, l, c, a), Line(q, k, d, b));
    } else {
      var i, j := SortedBefore(cfg.profiles.Keys, p, q);
      PiecesBefore(Sorted(cfg.profiles.Keys), printer, i, j);
      LineWithinProfile(cfg, p, l, c, a);
      LineWithinProfile(cfg, q, k, d, b);
      BeforeParts(body, printer(p), printer(q), Line(p, l, c, a), Line(q, k, d, b));
    }
    ConcatAt(HeaderText(cfg), body);
    BeforeWithin(ConfigText(cfg), body, Line(p, l, c, a), Line(q, k, d, b));
    LineIs(p, l, c, a);
    LineIs(q, k, d, b);
  }

  function Setting(name: string, text: string): string { name + " = " + text + "\n" }

  lemma SettingIs(name: string, text: string)
    ensures Statement([name], text) == Setting(name, text)
  {
  }

  /** The text begins with the three settings, a line each, and an empty line. */
  lemma HeaderFirst(cfg: LayeredControlConfig)
    ensures IsAt(ConfigText(cfg), 0,
                 Setting("schema_version", IntText(cfg.schemaVersion))
                 + Setting("default_profile", TomlStr(cfg.defaultProfile))
                 + Setting("initial_layer", TomlStr(cfg.initialLayer)) + "\n")
  {
    SettingIs("schema_version", IntText(cfg.schemaVersion));
    SettingIs("default_profile", TomlStr(cfg.defaultProfile));
    SettingIs("initial_layer", TomlStr(cfg.initialLayer));
    ConcatAt(HeaderText(cfg), ConcatMap(Sorted(cfg.profiles.Keys), ProfilePrinter(cfg.profiles, CANONICAL_CONTROLS)));
  }

  // ---- The text of a string ----

  /** How each character is printed inside a string. */
  lemma EscapeTable(c: char)
    ensures EscapeChar('"') == "\\\"" && EscapeChar('\\') == "\\\\"
    ensures EscapeChar('\U{8}') == "\\b" && EscapeChar('\t') == "\\t" && EscapeChar('\n') == "\\n"
    ensures EscapeChar('\U{C}') == "\\f" && EscapeChar('\r') == "\\r"
    ensures var n := c as int;
            if c in "\"\\\U{8}\t\n\U{C}\r" then true
            else if n < 32 || n == 127 then
              EscapeChar(c) == "\\u00" + ["0123456789abcdef"[n / 16], "0123456789abcdef"[n % 16]]
            else EscapeChar(c) == [c]
  {
  }
}
