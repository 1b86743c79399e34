/** The round trip of whole configurations: which configurations survive being printed and loaded
    again, and as what. */
module ConfigRoundTrip {
  import opened Wrappers
  import opened Text
  import opened ControlModel
  import opened Toml
  import opened ConfigParser
  import opened ActionSpec
  import opened Serializer
  import opened RoundTrip

  // ---- What reading has stored so far: the value under each profile, layer and control ----

  type Cells = map<string, Value>
  type LayerCells = map<string, Cells>
  type ProfileCells = map<string, LayerCells>

  function ControlTables(m: Cells): Entries {
    map c | c in m :: Table(map["action" := m[c]], false)
  }

  /** Tables of one field each: `k.field = ...` for every `k`. */
  function Wrapped(m: map<string, Entries>, field: string): Entries {
    map k | k in m :: Table(map[field := Table(m[k], false)], false)
  }

  function LayerTables(m: LayerCells): Entries {
    Wrapped(EachControlTables(m), "controls")
  }

  function EachControlTables(m: LayerCells): map<string, Entries> {
    map l | l in m :: ControlTables(m[l])
  }

  function ProfileTables(m: ProfileCells): Entries {
    Wrapped(EachLayerTables(m), "layers")
  }

  function EachLayerTables(m: ProfileCells): map<string, Entries> {
    map p | p in m :: LayerTables(m[p])
  }

  function Root(header: Entries, m: ProfileCells): Entries {
    if m == map[] then header else header["profiles" := Table(ProfileTables(m), false)]
  }

  function CellsAt(m: LayerCells, l: string): Cells { if l in m then m[l] else map[] }

  function LayersAt(m: ProfileCells, p: string): LayerCells { if p in m then m[p] else map[] }

  function PutCells(m: LayerCells, l: string, cells: Cells): LayerCells {
    if cells == map[] then m else m[l := CellsAt(m, l) + cells]
  }

  function PutLayers(m: ProfileCells, p: string, layers: LayerCells): ProfileCells {
    if layers == map[] then m else m[p := LayersAt(m, p) + layers]
  }

  function Put(m: ProfileCells, p: string, l: string, cells: Cells): ProfileCells {
    if cells == map[] then m else m[p := PutCells(LayersAt(m, p), l, cells)]
  }

  // ---- Storing one cell ----

  lemma InsertAction(v: Value)
    ensures Insert(map[], ["action"], v) == Some(map["action" := v])
  {
  }

  lemma InsertBelow(m: Entries, k: string, path: seq<string>, v: Value, sub: Entries, sub1: Entries)
    requires path != []
    requires sub == if k in m && m[k].Table? then m[k].entries else map[]
    requires k in m ==> m[k].Table? && !m[k].inline
    requires Insert(sub, path, v) == Some(sub1)
    ensures Insert(m, [k] + path, v) == Some(m[k := Table(sub1, false)])
  {
    assert ([k] + path)[1..] == path;
  }

  lemma InsertControl(m: Cells, c: string, v: Value)
    requires c !in m
    ensures Insert(ControlTables(m), [c, "action"], v) == Some(ControlTables(m[c := v]))
  {
    InsertAction(v);
    InsertBelow(ControlTables(m), c, ["action"], v, map[], map["action" := v]);
    assert [c] + ["action"] == [c, "action"];
    assert ControlTables(m)[c := Table(map["action" := v], false)] == ControlTables(m[c := v]);
  }

  lemma InsertWrapped(m: map<string, Entries>, field: string, k: string, path: seq<string>, v: Value, sub: Entries)
    requires path != []
    requires Insert(if k in m then m[k] else map[], path, v) == Some(sub)
    ensures Insert(Wrapped(m, field), [k, field] + path, v) == Some(Wrapped(m[k := sub], field))
  {
    var old_ := if k in m then m[k] else map[];
    var inner := if k in m then map[field := Table(m[k], false)] else map[];
    var inner1 := map[field := Table(sub, false)];
    InsertBelow(inner, field, path, v, old_, sub);
    assert inner[field := Table(sub, false)] == inner1;
    InsertBelow(Wrapped(m, field), k, [field] + path, v, inner, inner1);
    assert [k] + ([field] + path) == [k, field] + path;
    assert Wrapped(m, field)[k := Table(inner1, false)] == Wrapped(m[k := sub], field);
  }

  function ControlPath(c: string): seq<string> { [c, "action"] }

  function LayerPath(l: string, c: string): seq<string> { [l, "controls"] + ControlPath(c) }

  function ProfilePath(p: string, l: string, c: string): seq<string> { [p, "layers"] + LayerPath(l, c) }

  lemma InsertLayer(m: LayerCells, l: string, c: string, v: Value)
    requires c !in CellsAt(m, l)
    ensures Insert(LayerTables(m), LayerPath(l, c), v) == Some(LayerTables(m[l := CellsAt(m, l)[c := v]]))
  {
    var cells1 := CellsAt(m, l)[c := v];
    InsertControl(CellsAt(m, l), c, v);
    EachControlTablesPut(m, l, cells1);
    InsertWrapped(EachControlTables(m), "controls", l, ControlPath(c), v, ControlTables(cells1));
  }

  lemma EachControlTablesPut(m: LayerCells, l: string, cells: Cells)
    ensures EachControlTables(m[l := cells]) == EachControlTables(m)[l := ControlTables(cells)]
    ensures ControlTables(CellsAt(m, l)) == if l in EachControlTables(m) then EachControlTables(m)[l] else map[]
  {
  }

  lemma EachLayerTablesPut(m: ProfileCells, p: string, layers: LayerCells)
    ensures EachLayerTables(m[p := layers]) == EachLayerTables(m)[p := LayerTables(layers)]
    ensures LayerTables(LayersAt(m, p)) == if p in EachLayerTables(m) then EachLayerTables(m)[p] else map[]
  {
  }

  lemma InsertProfile(m: ProfileCells, p: string, layers: LayerCells, path: seq<string>, v: Value)
    requires path != [] && Insert(LayerTables(LayersAt(m, p)), path, v) == Some(LayerTables(layers))
    ensures Insert(ProfileTables(m), [p, "layers"] + path, v) == Some(ProfileTables(m[p := layers]))
  {
    EachLayerTablesPut(m, p, layers);
    InsertWrapped(EachLayerTables(m), "layers", p, path, v, LayerTables(layers));
  }

  lemma InsertRoot(header: Entries, m: ProfileCells, m1: ProfileCells, path: seq<string>, v: Value)
    requires "profiles" !in header && m1 != map[]
    requires path != [] && Insert(ProfileTables(m), path, v) == Some(ProfileTables(m1))
    ensures Insert(Root(header, m), ["profiles"] + path, v) == Some(Root(header, m1))
  {
    assert m == map[] ==> ProfileTables(m) == map[];
    InsertBelow(Root(header, m), "profiles", path, v, ProfileTables(m), ProfileTables(m1));
    RootAgain(header, m, m1);
  }

  lemma RootAgain(header: Entries, m: ProfileCells, m1: ProfileCells)
    requires m1 != map[]
    ensures Root(header, m)["profiles" := Table(ProfileTables(m1), false)] == Root(header, m1)
  {
  }

  lemma PutOne(m: ProfileCells, p: string, l: string, c: string, v: Value)
    ensures var layers := LayersAt(m, p);
            Put(m, p, l, map[c := v]) == m[p := layers[l := CellsAt(layers, l)[c := v]]]
  {
    var cells := CellsAt(LayersAt(m, p), l);
    assert c in map[c := v];
    assert cells + map[c := v] == cells[c := v];
  }

  lemma ActionPathParts(p: string, l: string, c: string)
    ensures ["profiles"] + ProfilePath(p, l, c) == ActionPath(p, l, c)
  {
  }

  lemma InsertCell(header: Entries, m: ProfileCells, p: string, l: string, c: string, v: Value)
    requires "profiles" !in header
    requires c !in CellsAt(LayersAt(m, p), l)
    ensures Insert(Root(header, m), ActionPath(p, l, c), v) == Some(Root(header, Put(m, p, l, map[c := v])))
  {
    var layers := LayersAt(m, p);
    var layers1 := layers[l := CellsAt(layers, l)[c := v]];
    assert Insert(ProfileTables(m), ProfilePath(p, l, c), v) == Some(ProfileTables(m[p := layers1])) by {
      InsertLayer(layers, l, c, v);
      InsertProfile(m, p, layers1, LayerPath(l, c), v);
    }
    assert p in m[p := layers1];
    InsertRoot(header, m, m[p := layers1], ProfilePath(p, l, c), v);
    ActionPathParts(p, l, c);
    PutOne(m, p, l, c, v);
  }

  // ---- Reading the lines of one layer ----

  /** The specs of the controls of `cs` that are mapped. */
  function CellsOf(controls: map<string, Action>, cs: seq<string>): Cells {
    map c | c in cs && c in controls :: ActionToSpec(controls[c])
  }

  /** A printed line, as a statement. */
  lemma ReadLineText(m: Entries, path: seq<string>, a: Action, rest: string)
    requires path != [] && forall k :: k in path ==> BareKey(k)
    ensures ReadDocument(Statement(path, EmitAction(0, a)) + rest, m)
         == (if Insert(m, path, ActionToSpec(a)).None? then None
             else ReadDocument(rest, Insert(m, path, ActionToSpec(a)).value))
  {
    var text := EmitAction(0, a);
    ReadAction(0, a, "\n" + rest);
    assert NoBlank(text) by {
      ActionStarts(0, a, "");
      assert text + "" == text;
    }
    ReadStatement(path, text, ActionToSpec(a), rest, m);
  }

  /** A printed line stores one cell, unless the profile identifier is not a bare key. */
  lemma ReadLine(header: Entries, m: ProfileCells, p: string, l: string, c: string, a: Action, rest: string)
    requires "profiles" !in header && BareKey(p) && BareKey(l) && BareKey(c)
    requires c !in CellsAt(LayersAt(m, p), l)
    ensures ReadDocument(Line(p, l, c, a) + rest, Root(header, m))
         == ReadDocument(rest, Root(header, Put(m, p, l, map[c := ActionToSpec(a)])))
  {
    var v := ActionToSpec(a);
    assert forall k :: k in ActionPath(p, l, c) ==> BareKey(k) by { PathWords(); }
    ReadLineText(Root(header, m), ActionPath(p, l, c), a, rest);
    InsertCell(header, m, p, l, c, v);
  }

  lemma PathWords()
    ensures BareKey("profiles") && BareKey("layers") && BareKey("controls") && BareKey("action")
  {
  }

  lemma AddBefore(base: Cells, c: string, v: Value, cells: Cells)
    requires c !in cells
    ensures base[c := v] + cells == base + cells[c := v]
  {
  }

  lemma PutTwice(m: ProfileCells, p: string, l: string, c: string, v: Value, cells: Cells)
    requires c !in cells
    ensures Put(Put(m, p, l, map[c := v]), p, l, cells) == Put(m, p, l, cells[c := v])
  {
    PutOne(m, p, l, c, v);
    var base := CellsAt(LayersAt(m, p), l);
    assert c in cells[c := v];
    AddBefore(base, c, v, cells);
    var layers := LayersAt(m, p);
    assert layers[l := base[c := v]][l := base + cells[c := v]] == layers[l := base + cells[c := v]];
    if cells == map[] {
      assert base + map[c := v] == base[c := v];
      assert cells[c := v] == map[c := v];
    }
  }

  function SpecOf(controls: map<string, Action>, c: string): Cells {
    if c in controls then map[c := ActionToSpec(controls[c])] else map[]
  }

  lemma CellsOfHead(controls: map<string, Action>, cs: seq<string>)
    requires cs != [] && Distinct(cs)
    ensures cs[0] !in CellsOf(controls, cs[1..])
    ensures CellsOf(controls, cs)
         == if cs[0] in controls then CellsOf(controls, cs[1..])[cs[0] := ActionToSpec(controls[cs[0]])]
            else CellsOf(controls, cs[1..])
  {
    assert cs == [cs[0]] + cs[1..];
  }

  lemma ReadControl(
      header: Entries, m: ProfileCells, p: string, l: string, controls: map<string, Action>, c: string, more: string)
    requires "profiles" !in header && BareKey(p) && BareKey(l) && BareKey(c)
    requires c !in CellsAt(LayersAt(m, p), l)
    ensures ReadDocument(ControlPrinter(p, l, controls)(c) + more, Root(header, m))
         == ReadDocument(more, Root(header, Put(m, p, l, SpecOf(controls, c))))
  {
    if c in controls {
      ReadLine(header, m, p, l, c, controls[c], more);
    } else {
      assert "" + more == more;
    }
  }

  lemma PutHead(m: ProfileCells, p: string, l: string, controls: map<string, Action>, cs: seq<string>)
    requires cs != [] && Distinct(cs)
    requires forall c :: c in cs ==> c !in CellsAt(LayersAt(m, p), l)
    ensures var m1 := Put(m, p, l, SpecOf(controls, cs[0]));
            && Put(m1, p, l, CellsOf(controls, cs[1..])) == Put(m, p, l, CellsOf(controls, cs))
            && forall c :: c in cs[1..] ==> c !in CellsAt(LayersAt(m1, p), l)
  {
    CellsOfHead(controls, cs);
    if cs[0] in controls {
      var v := ActionToSpec(controls[cs[0]]);
      PutTwice(m, p, l, cs[0], v, CellsOf(controls, cs[1..]));
      PutOne(m, p, l, cs[0], v);
    }
  }

  /** The lines of a layer store the specs of its mapped controls. */
  lemma {:induction false} ReadLayer(
      header: Entries, m: ProfileCells, p: string, l: string, controls: map<string, Action>, cs: seq<string>, rest: string)
    requires "profiles" !in header && BareKey(p) && BareKey(l) && forall c :: c in cs ==> BareKey(c)
    requires Distinct(cs) && forall c :: c in cs ==> c !in CellsAt(LayersAt(m, p), l)
    ensures ReadDocument(ConcatMap(cs, ControlPrinter(p, l, controls)) + rest, Root(header, m))
         == ReadDocument(rest, Root(header, Put(m, p, l, CellsOf(controls, cs))))
    decreases |cs|
  {
    var printer := ControlPrinter(p, l, controls);
    ConcatMapHead(cs, printer, rest);
    if cs != [] {
      ReadControl(header, m, p, l, controls, cs[0], ConcatMap(cs[1..], printer) + rest);
      PutHead(m, p, l, controls, cs);
      ReadLayer(header, Put(m, p, l, SpecOf(controls, cs[0])), p, l, controls, cs[1..], rest);
    } else {
      assert CellsOf(controls, cs) == map[];
    }
  }

  // ---- Reading the lines of one profile ----

  function LayersOf(layers: map<string, LayerConfig>, ls: seq<string>, cs: seq<string>): LayerCells {
    map l | l in ls && l in layers && CellsOf(layers[l].controls, cs) != map[] :: CellsOf(layers[l].controls, cs)
  }

  lemma PutThenLayers(m: ProfileCells, p: string, l: string, cells: Cells, layers: LayerCells)
    requires l !in LayersAt(m, p) && l !in layers && cells != map[]
    ensures PutLayers(Put(m, p, l, cells), p, layers) == PutLayers(m, p, layers[l := cells])
  {
    var base := LayersAt(m, p);
    assert map[] + cells == cells;
    assert Put(m, p, l, cells) == m[p := base[l := cells]];
    assert base[l := cells] + layers == base + layers[l := cells];
    assert l in layers[l := cells];
    if layers == map[] {
      assert base + map[l := cells] == base[l := cells];
      assert layers[l := cells] == map[l := cells];
    }
  }

  function CellsIn(layers: map<string, LayerConfig>, l: string, cs: seq<string>): Cells {
    if l in layers then CellsOf(layers[l].controls, cs) else map[]
  }

  lemma ReadOneLayer(
      header: Entries, m: ProfileCells, p: string, layers: map<string, LayerConfig>, l: string, cs: seq<string>, more: string)
    requires "profiles" !in header && BareKey(p) && BareKey(l)
    requires Distinct(cs) && forall c :: c in cs ==> BareKey(c)
    requires l !in LayersAt(m, p)
    ensures ReadDocument(LayerPrinter(p, layers, cs)(l) + more, Root(header, m))
         == ReadDocument(more, Root(header, Put(m, p, l, CellsIn(layers, l, cs))))
  {
    if l in layers {
      ReadLayer(header, m, p, l, layers[l].controls, cs, more);
    } else {
      assert "" + more == more;
    }
  }

  lemma LayersOfHead(m: ProfileCells, p: string, layers: map<string, LayerConfig>, ls: seq<string>, cs: seq<string>)
    requires ls != [] && Distinct(ls) && forall l :: l in ls ==> l !in LayersAt(m, p)
    ensures var m1 := Put(m, p, ls[0], CellsIn(layers, ls[0], cs));
            && PutLayers(m1, p, LayersOf(layers, ls[1..], cs)) == PutLayers(m, p, LayersOf(layers, ls, cs))
            && forall l :: l in ls[1..] ==> l !in LayersAt(m1, p)
  {
    var l, others := ls[0], LayersOf(layers, ls[1..], cs);
    var cells := CellsIn(layers, l, cs);
    assert ls == [l] + ls[1..] && l !in ls[1..];
    LayersOfCons(layers, l, ls[1..], cs);
    if cells != map[] {
      PutThenLayers(m, p, l, cells, others);
    }
  }

  lemma LayersOfCons(layers: map<string, LayerConfig>, l: string, ls: seq<string>, cs: seq<string>)
    requires l !in ls
    ensures var cells := CellsIn(layers, l, cs);
            LayersOf(layers, [l] + ls, cs)
              == if cells != map[] then LayersOf(layers, ls, cs)[l := cells] else LayersOf(layers, ls, cs)
  {
    var all := [l] + ls;
    assert forall k :: k in all <==> k == l || k in ls;
  }

  lemma {:induction false} ReadLayers(
      header: Entries, m: ProfileCells, p: string, layers: map<string, LayerConfig>,
      ls: seq<string>, cs: seq<string>, rest: string)
    requires "profiles" !in header && BareKey(p)
    requires forall l :: l in ls ==> BareKey(l)
    requires Distinct(cs) && forall c :: c in cs ==> BareKey(c)
    requires Distinct(ls) && forall l :: l in ls ==> l !in LayersAt(m, p)
    ensures ReadDocument(ConcatMap(ls, LayerPrinter(p, layers, cs)) + rest, Root(header, m))
         == ReadDocument(rest, Root(header, PutLayers(m, p, LayersOf(layers, ls, cs))))
    decreases |ls|
  {
    var printer := LayerPrinter(p, layers, cs);
    ConcatMapHead(ls, printer, rest);
    if ls != [] {
      ReadOneLayer(header, m, p, layers, ls[0], cs, ConcatMap(ls[1..], printer) + rest);
      LayersOfHead(m, p, layers, ls, cs);
      ReadLayers(header, Put(m, p, ls[0], CellsIn(layers, ls[0], cs)), p, layers, ls[1..], cs, rest);
    } else {
      assert LayersOf(layers, ls, cs) == map[];
    }
  }

  // ---- Profile identifiers that are not bare keys ----

  /** Accepted identifiers that end in a newline. */
  predicate EndsInNewline(p: string) { p != "" && p[|p| - 1] == '\n' }

  lemma ProfileIdKinds(p: string)
    requires IsProfileId(p)
    ensures EndsInNewline(p) ==> BareKey(p[..|p| - 1])
    ensures !EndsInNewline(p) ==> BareKey(p)
  {
  }

  lemma ReadBrokenKey(q: string, more: string)
    requires BareKey(q)
    ensures var s := "profiles" + ("." + (q + ("\n" + more)));
            NoBlank(s) && ReadKey(s) == Got(["profiles", q], "\n" + more)
  {
    PathWords();
    var tail := q + ("\n" + more);
    ReadBareKeyText(q, "\n" + more);
    assert SkipBlanks("\n" + more) == "\n" + more;
    assert ReadKey(tail) == Got([q], "\n" + more);
    ReadDotted("profiles", tail);
    assert ["profiles"] + [q] == ["profiles", q];
  }

  lemma ReadNoEquals(s: string, ks: seq<string>, after: string, m: Entries)
    requires NoBlank(s) && ReadKey(s) == Got(ks, after) && after != "" && after[0] != '='
    ensures ReadDocument(s, m) == None
  {
    SkipNothing(s);
  }

  /** The newline inside such an identifier ends the statement before its equals sign. */
  lemma ReadBrokenLine(p: string, l: string, c: string, a: Action, rest: string, m: Entries)
    requires IsProfileId(p) && EndsInNewline(p)
    ensures ReadDocument(Line(p, l, c, a) + rest, m) == None
  {
    ProfileIdKinds(p);
    var q, more := p[..|p| - 1], Join(["layers", l, "controls", c, "action"], ".");
    assert p == q + "\n";
    var after := "." + more + " = " + EmitAction(0, a) + "\n" + rest;
    BrokenLineText(p, q, l, c, EmitAction(0, a), rest);
    ReadBrokenKey(q, after);
    ReadNoEquals(Line(p, l, c, a) + rest, ["profiles", q], "\n" + after, m);
  }

  lemma BrokenLineText(p: string, q: string, l: string, c: string, text: string, rest: string)
    requires p == q + "\n"
    ensures Statement(ActionPath(p, l, c), text) + rest
         == "profiles" + ("." + (q + ("\n" +
              ("." + Join(["layers", l, "controls", c, "action"], ".") + " = " + text + "\n" + rest))))
  {
    var path := ActionPath(p, l, c);
    var more := Join(["layers", l, "controls", c, "action"], ".");
    assert path[1..] == [p, "layers", l, "controls", c, "action"];
    assert path[1..][1..] == ["layers", l, "controls", c, "action"];
    assert Join(path[1..], ".") == p + "." + more;
    assert Join(path, ".") == "profiles" + "." + (p + "." + more);
  }

  lemma {:induction false} ReadBrokenLayer(
      m: Entries, p: string, l: string, controls: map<string, Action>, cs: seq<string>, rest: string)
    requires IsProfileId(p) && EndsInNewline(p) && Distinct(cs)
    ensures ReadDocument(ConcatMap(cs, ControlPrinter(p, l, controls)) + rest, m)
         == if CellsOf(controls, cs) == map[] then ReadDocument(rest, m) else None
    decreases |cs|
  {
    var printer := ControlPrinter(p, l, controls);
    ConcatMapHead(cs, printer, rest);
    if cs == [] {
      assert CellsOf(controls, cs) == map[];
    } else {
      var more := ConcatMap(cs[1..], printer) + rest;
      CellsOfHead(controls, cs);
      if cs[0] in controls {
        ReadBrokenLine(p, l, cs[0], controls[cs[0]], more, m);
        assert cs[0] in CellsOf(controls, cs);
      } else {
        assert "" + more == more;
        ReadBrokenLayer(m, p, l, controls, cs[1..], rest);
      }
    }
  }

  lemma ReadOneBrokenLayer(
      m: Entries, p: string, layers: map<string, LayerConfig>, l: string, cs: seq<string>, more: string)
    requires IsProfileId(p) && EndsInNewline(p) && Distinct(cs)
    ensures ReadDocument(LayerPrinter(p, layers, cs)(l) + more, m)
         == if CellsIn(layers, l, cs) == map[] then ReadDocument(more, m) else None
  {
    if l in layers {
      ReadBrokenLayer(m, p, l, layers[l].controls, cs, more);
    } else {
      assert "" + more == more;
    }
  }

  lemma {:induction false} ReadBrokenLayers(
      m: Entries, p: string, layers: map<string, LayerConfig>, ls: seq<string>, cs: seq<string>, rest: string)
    requires IsProfileId(p) && EndsInNewline(p) && Distinct(cs) && Distinct(ls)
    ensures ReadDocument(ConcatMap(ls, LayerPrinter(p, layers, cs)) + rest, m)
         == if LayersOf(layers, ls, cs) == map[] then ReadDocument(rest, m) else None
    decreases |ls|
  {
    var printer := LayerPrinter(p, layers, cs);
    ConcatMapHead(ls, printer, rest);
    if ls == [] {
      assert LayersOf(layers, ls, cs) == map[];
    } else {
      ReadOneBrokenLayer(m, p, layers, ls[0], cs, ConcatMap(ls[1..], printer) + rest);
      ReadBrokenLayers(m, p, layers, ls[1..], cs, rest);
      LayersOfEmptyHead(layers, ls, cs);
    }
  }

  lemma LayersOfEmptyHead(layers: map<string, LayerConfig>, ls: seq<string>, cs: seq<string>)
    requires ls != [] && Distinct(ls)
    ensures LayersOf(layers, ls, cs) == map[]
       <==> CellsIn(layers, ls[0], cs) == map[] && LayersOf(layers, ls[1..], cs) == map[]
  {
    assert ls == [ls[0]] + ls[1..];
    if CellsIn(layers, ls[0], cs) != map[] {
      assert ls[0] in LayersOf(layers, ls, cs);
    } else {
      assert LayersOf(layers, ls, cs) == LayersOf(layers, ls[1..], cs);
    }
  }

  // ---- Reading the lines of all profiles ----

  lemma LayerIdsAreBare(l: string)
    requires IsLayerId(l)
    ensures BareKey(l)
  {
  }

  lemma ControlsAreBare(c: string)
    requires IsControl(c)
    ensures BareKey(c)
  {
  }

  /** The position of a control's name in the canonical order. */
  function ControlIndex(c: string): int {
    if |c| < 2 then -1
    else if '0' <= c[1] <= '9' then (if |c| == 2 then c[1] as int - '1' as int else 9 + c[2] as int - '0' as int)
    else 12 + 3 * (c[0] as int - 'A' as int) + (if c[1] == 'L' then 0 else if c[1] == 'P' then 1 else 2)
  }

  lemma CanonicalIndex(i: nat)
    requires i < 24
    ensures ControlIndex(CANONICAL_CONTROLS[i]) == i
  {
  }

  lemma CanonicalControlsDistinct()
    ensures Distinct(CANONICAL_CONTROLS)
  {
    forall i, j | 0 <= i < j < |CANONICAL_CONTROLS| ensures CANONICAL_CONTROLS[i] != CANONICAL_CONTROLS[j] {
      CanonicalIndex(i);
      CanonicalIndex(j);
    }
  }

  /** What reading a profile's lines stores. */
  function PrintedLayers(prof: ProfileConfig, cs: seq<string>): LayerCells {
    map l | l in prof.layers && CellsIn(prof.layers, l, cs) != map[] :: CellsIn(prof.layers, l, cs)
  }

  predicate Breaks(p: string, layers: LayerCells) {
    EndsInNewline(p) && layers != map[]
  }

  lemma LayersInOrder(prof: ProfileConfig, cs: seq<string>)
    requires WfProfile(prof)
    ensures var ls := Sorted(prof.layers.Keys);
            && Distinct(ls) && LayersOf(prof.layers, ls, cs) == PrintedLayers(prof, cs)
            && forall l :: l in ls ==> BareKey(l)
  {
    var ls := Sorted(prof.layers.Keys);
    SortedIncreases(prof.layers.Keys);
    forall l | l in ls ensures BareKey(l) { LayerIdsAreBare(l); }
  }

  lemma ReadProfileLines(
      header: Entries, m: ProfileCells, p: string, layers: map<string, LayerConfig>, ls: seq<string>, cs: seq<string>, rest: string)
    requires "profiles" !in header && IsProfileId(p) && p !in m
    requires Distinct(ls) && forall l :: l in ls ==> BareKey(l)
    requires Distinct(cs) && forall c :: c in cs ==> BareKey(c)
    ensures ReadDocument(ConcatMap(ls, LayerPrinter(p, layers, cs)) + rest, Root(header, m))
         == if Breaks(p, LayersOf(layers, ls, cs)) then None
            else ReadDocument(rest, Root(header, PutLayers(m, p, LayersOf(layers, ls, cs))))
  {
    ProfileIdKinds(p);
    if EndsInNewline(p) {
      ReadBrokenLayers(Root(header, m), p, layers, ls, cs, rest);
    } else {
      ReadLayers(header, m, p, layers, ls, cs, rest);
    }
  }

  lemma ReadProfile(
      header: Entries, m: ProfileCells, p: string, prof: ProfileConfig, cs: seq<string>, rest: string)
    requires "profiles" !in header && IsProfileId(p) && WfProfile(prof) && p !in m
    requires Distinct(cs) && forall c :: c in cs ==> BareKey(c)
    ensures ReadDocument(ProfileText(p, prof, cs) + rest, Root(header, m))
         == if Breaks(p, PrintedLayers(prof, cs)) then None
            else ReadDocument(rest, Root(header, PutLayers(m, p, PrintedLayers(prof, cs))))
  {
    var ls := Sorted(prof.layers.Keys);
    var lines := ConcatMap(ls, LayerPrinter(p, prof.layers, cs));
    LayersInOrder(prof, cs);
    assert ProfileText(p, prof, cs) + rest == "\n" + (lines + rest);
    ReadBlankLine(lines + rest, Root(header, m));
    ReadProfileLines(header, m, p, prof.layers, ls, cs, rest);
  }

  /** What reading every profile's lines would store. */
  function Printed(profiles: map<string, ProfileConfig>, cs: seq<string>): ProfileCells {
    map p | p in profiles :: PrintedLayers(profiles[p], cs)
  }

  /** The profiles of `ps` that print at least one line. */
  function NonEmpty(printed: ProfileCells, ps: seq<string>): ProfileCells {
    map p | p in ps && p in printed && printed[p] != map[] :: printed[p]
  }

  predicate AnyBreaks(printed: ProfileCells, ps: seq<string>) {
    exists p :: p in ps && p in printed && Breaks(p, printed[p])
  }

  lemma PutBeforeOthers(m: ProfileCells, p: string, layers: LayerCells, others: ProfileCells)
    requires p !in m && p !in others
    ensures PutLayers(m, p, layers) + others == m + (if layers == map[] then others else others[p := layers])
    ensures forall q :: q != p && q !in m ==> q !in PutLayers(m, p, layers)
  {
    assert map[] + layers == layers;
  }

  lemma NonEmptyHead(printed: ProfileCells, ps: seq<string>)
    requires ps != [] && Distinct(ps) && ps[0] in printed
    ensures ps[0] !in NonEmpty(printed, ps[1..])
    ensures NonEmpty(printed, ps)
         == if printed[ps[0]] == map[] then NonEmpty(printed, ps[1..])
            else NonEmpty(printed, ps[1..])[ps[0] := printed[ps[0]]]
  {
    assert ps == [ps[0]] + ps[1..] && ps[0] !in ps[1..];
  }

  lemma AnyBreaksHead(printed: ProfileCells, ps: seq<string>)
    requires ps != [] && ps[0] in printed
    ensures AnyBreaks(printed, ps) <==> Breaks(ps[0], printed[ps[0]]) || AnyBreaks(printed, ps[1..])
  {
    if AnyBreaks(printed, ps) {
      var p :| p in ps && p in printed && Breaks(p, printed[p]);
      assert p == ps[0] || p in ps[1..];
    }
  }

  lemma StoreHead(m: ProfileCells, printed: ProfileCells, ps: seq<string>)
    requires ps != [] && Distinct(ps) && ps[0] in printed && forall p :: p in ps ==> p !in m
    ensures var m1 := PutLayers(m, ps[0], printed[ps[0]]);
            && m1 + NonEmpty(printed, ps[1..]) == m + NonEmpty(printed, ps)
            && forall p :: p in ps[1..] ==> p !in m1
  {
    NonEmptyHead(printed, ps);
    PutBeforeOthers(m, ps[0], printed[ps[0]], NonEmpty(printed, ps[1..]));
    assert ps[0] !in ps[1..];
  }

  type WfProfiles = ps: map<string, ProfileConfig> | forall p :: p in ps ==> IsProfileId(p) && WfProfile(ps[p])

  lemma ReadPrinter(
      header: Entries, m: ProfileCells, profiles: WfProfiles, p: string, cs: seq<string>, more: string)
    requires "profiles" !in header && p in profiles && p !in m
    requires Distinct(cs) && forall c :: c in cs ==> BareKey(c)
    ensures ReadDocument(ProfilePrinter(profiles, cs)(p) + more, Root(header, m))
         == if Breaks(p, Printed(profiles, cs)[p]) then None
            else ReadDocument(more, Root(header, PutLayers(m, p, Printed(profiles, cs)[p])))
  {
    ReadProfile(header, m, p, profiles[p], cs, more);
  }

  ghost predicate ProfilesRead(
      header: Entries, m: ProfileCells, profiles: WfProfiles, printed: ProfileCells,
      ps: seq<string>, cs: seq<string>, rest: string)
  {
    ReadDocument(ConcatMap(ps, ProfilePrinter(profiles, cs)) + rest, Root(header, m))
      == if AnyBreaks(printed, ps) then None else ReadDocument(rest, Root(header, m + NonEmpty(printed, ps)))
  }

  lemma ReadProfilesStep(
      header: Entries, m: ProfileCells, profiles: WfProfiles, printed: ProfileCells,
      ps: seq<string>, cs: seq<string>, rest: string)
    requires "profiles" !in header && printed == Printed(profiles, cs)
    requires Distinct(cs) && forall c :: c in cs ==> BareKey(c)
    requires ps != [] && Distinct(ps) && forall p :: p in ps ==> p in profiles && p !in m
    requires ProfilesRead(header, PutLayers(m, ps[0], printed[ps[0]]), profiles, printed, ps[1..], cs, rest)
    ensures ProfilesRead(header, m, profiles, printed, ps, cs, rest)
  {
    var printer := ProfilePrinter(profiles, cs);
    ConcatMapHead(ps, printer, rest);
    ReadPrinter(header, m, profiles, ps[0], cs, ConcatMap(ps[1..], printer) + rest);
    StoreHead(m, printed, ps);
    AnyBreaksHead(printed, ps);
  }

  lemma ReadNoProfiles(
      header: Entries, m: ProfileCells, profiles: WfProfiles, printed: ProfileCells, cs: seq<string>, rest: string)
    ensures ProfilesRead(header, m, profiles, printed, [], cs, rest)
  {
    ConcatMapHead([], ProfilePrinter(profiles, cs), rest);
    assert NonEmpty(printed, []) == map[];
    assert m + map[] == m;
  }

  /** The lines of all profiles store what each prints, unless an identifier breaks its line. */
  lemma {:induction false} ReadProfiles(
      header: Entries, m: ProfileCells, profiles: WfProfiles, printed: ProfileCells,
      ps: seq<string>, cs: seq<string>, rest: string)
    requires "profiles" !in header && printed == Printed(profiles, cs)
    requires Distinct(cs) && forall c :: c in cs ==> BareKey(c)
    requires Distinct(ps) && forall p :: p in ps ==> p in profiles && p !in m
    ensures ProfilesRead(header, m, profiles, printed, ps, cs, rest)
    decreases |ps|
  {
    if ps == [] {
      ReadNoProfiles(header, m, profiles, printed, cs, rest);
    } else {
      StoreHead(m, printed, ps);
      ReadProfiles(header, PutLayers(m, ps[0], printed[ps[0]]), profiles, printed, ps[1..], cs, rest);
      ReadProfilesStep(header, m, profiles, printed, ps, cs, rest);
    }
  }

  // ---- Reading the whole text ----

  function Header(cfg: LayeredControlConfig): Entries {
    map["schema_version" := Int(cfg.schemaVersion),
        "default_profile" := Str(cfg.defaultProfile),
        "initial_layer" := Str(cfg.initialLayer)]
  }

  lemma HeaderWords()
    ensures BareKey("schema_version") && BareKey("default_profile") && BareKey("initial_layer")
  {
  }

  lemma ReadHeaderField(key: string, text: string, v: Value, rest: string, m: Entries)
    requires BareKey(key) && key !in m && NoBlank(text)
    requires ReadValue(text + ("\n" + rest)) == Got(v, "\n" + rest)
    ensures ReadDocument(Statement([key], text) + rest, m) == ReadDocument(rest, m[key := v])
  {
    ReadStatement([key], text, v, rest, m);
  }

  lemma ReadHeader(cfg: LayeredControlConfig, body: string)
    ensures ReadDocument(HeaderText(cfg) + body, map[]) == ReadDocument(body, Header(cfg))
  {
    HeaderWords();
    var version, default, initial := IntText(cfg.schemaVersion), TomlStr(cfg.defaultProfile), TomlStr(cfg.initialLayer);
    var rest3 := "\n" + body;
    var rest2 := Statement(["initial_layer"], initial) + rest3;
    var rest1 := Statement(["default_profile"], default) + rest2;
    IntTextStarts(cfg.schemaVersion);
    ReadIntText(cfg.schemaVersion, "\n" + rest1);
    ReadTomlStr(cfg.defaultProfile, "\n" + rest2);
    ReadTomlStr(cfg.initialLayer, "\n" + rest3);
    var m1 := map["schema_version" := Int(cfg.schemaVersion)];
    var m2 := m1["default_profile" := Str(cfg.defaultProfile)];
    ReadHeaderField("schema_version", version, Int(cfg.schemaVersion), rest1, map[]);
    ReadHeaderField("default_profile", default, Str(cfg.defaultProfile), rest2, m1);
    ReadHeaderField("initial_layer", initial, Str(cfg.initialLayer), rest3, m2);
    ReadBlankLine(body, Header(cfg));
    HeaderParts(Statement(["schema_version"], version), Statement(["default_profile"], default),
                Statement(["initial_layer"], initial), body);
  }

  lemma HeaderParts(a: string, b: string, c: string, body: string)
    ensures (a + b + c + "\n") + body == a + (b + (c + ("\n" + body)))
  {
  }

  /** What the printed text decodes to. */
  function Decoded(cfg: LayeredControlConfig): Option<Entries> {
    var printed := Printed(cfg.profiles, CANONICAL_CONTROLS);
    var ps := Sorted(cfg.profiles.Keys);
    if AnyBreaks(printed, ps) then None else Some(Root(Header(cfg), NonEmpty(printed, ps)))
  }

  lemma ReadBody(header: Entries, profiles: WfProfiles, printed: ProfileCells, cs: seq<string>, ps: seq<string>)
    requires "profiles" !in header && printed == Printed(profiles, cs)
    requires Distinct(cs) && forall c :: c in cs ==> BareKey(c)
    requires Distinct(ps) && forall p :: p in ps ==> p in profiles
    ensures ReadDocument(ConcatMap(ps, ProfilePrinter(profiles, cs)), header)
         == if AnyBreaks(printed, ps) then None else Some(Root(header, NonEmpty(printed, ps)))
  {
    ReadProfiles(header, map[], profiles, printed, ps, cs, "");
    FromNothing(header, ConcatMap(ps, ProfilePrinter(profiles, cs)), NonEmpty(printed, ps), AnyBreaks(printed, ps));
  }

  /** Reading to the end of the text, from no profile stored. */
  lemma FromNothing(header: Entries, body: string, stored: ProfileCells, breaks: bool)
    requires ReadDocument(body + "", Root(header, map[]))
          == if breaks then None else ReadDocument("", Root(header, map[] + stored))
    ensures ReadDocument(body, header) == if breaks then None else Some(Root(header, stored))
  {
    assert body + "" == body;
    assert map[] + stored == stored;
  }

  lemma LoadsPrinted(cfg: LayeredControlConfig)
    requires WfConfig(cfg)
    ensures Loads(ConfigText(cfg)) == Decoded(cfg)
  {
    var cs, ps := CANONICAL_CONTROLS, Sorted(cfg.profiles.Keys);
    assert forall c :: c in cs ==> BareKey(c) by {
      forall c | c in cs ensures BareKey(c) { ControlsAreBare(c); }
    }
    CanonicalControlsDistinct();
    assert Distinct(ps) by { SortedIncreases(cfg.profiles.Keys); }
    ReadBody(Header(cfg), cfg.profiles, Printed(cfg.profiles, cs), cs, ps);
    ReadHeader(cfg, ConcatMap(ps, ProfilePrinter(cfg.profiles, cs)));
  }

  // ---- What a configuration becomes ----

  function NormalControls(controls: map<string, Action>): map<string, Action> {
    map c | c in controls :: NormalAction(controls[c])
  }

  /** The layers that map a control, with their identifiers set from their keys. */
  function KeptLayers(layers: map<string, LayerConfig>): map<string, LayerConfig> {
    map l | l in layers && layers[l].controls != map[] :: LayerConfig(l, NormalControls(layers[l].controls))
  }

  predicate HasMapping(prof: ProfileConfig) {
    exists l :: l in prof.layers && prof.layers[l].controls != map[]
  }

  predicate MapsGeneral(prof: ProfileConfig) {
    GENERAL in prof.layers && prof.layers[GENERAL].controls != map[]
  }

  /** The configuration with everything unprinted erased: unmapped layers and profiles, timeouts
      of zero, and identifiers that disagree with their keys. */
  function NormalConfig(cfg: LayeredControlConfig): LayeredControlConfig {
    cfg.(profiles := map p | p in cfg.profiles && HasMapping(cfg.profiles[p])
                       :: ProfileConfig(p, KeptLayers(cfg.profiles[p].layers)))
  }

  /** The configurations whose text loads again. */
  predicate Survives(cfg: LayeredControlConfig) {
    && cfg.schemaVersion == 2
    && cfg.defaultProfile in cfg.profiles
    && HasMapping(cfg.profiles[cfg.defaultProfile])
    && forall p :: p in cfg.profiles && HasMapping(cfg.profiles[p]) ==>
         !EndsInNewline(p) && MapsGeneral(cfg.profiles[p])
  }

  ghost predicate ListsControls(cs: seq<string>) { forall c :: IsControl(c) ==> c in cs }

  lemma ParseEachControl(m: Entries, version: int, controls: map<string, Action>)
    requires m.Keys == controls.Keys
    requires forall c :: c in m ==> ParseControl(c, m[c], version) == Some(Some(controls[c]))
    ensures ParseControls(m, version) == Some(controls)
  {
    assert ControlsAccepted(m, version);
    assert ParseControls(m, version).value == controls;
  }

  lemma PrintsEachControl(controls: map<string, Action>, cs: seq<string>)
    requires ListsControls(cs) && WfControls(controls)
    ensures CellsOf(controls, cs).Keys == controls.Keys
    ensures CellsOf(controls, cs) == map[] <==> controls == map[]
  {
    assert CellsOf(controls, cs).Keys == controls.Keys;
  }

  lemma ParsePrintedControls(controls: map<string, Action>, cs: seq<string>)
    requires ListsControls(cs) && WfControls(controls)
    ensures ParseControls(ControlTables(CellsOf(controls, cs)), 2) == Some(NormalControls(controls))
  {
    var m, normal := ControlTables(CellsOf(controls, cs)), NormalControls(controls);
    PrintsEachControl(controls, cs);
    forall c | c in m ensures ParseControl(c, m[c], 2) == Some(Some(normal[c])) {
      ParsePrintedControl(c, controls[c]);
    }
    ParseEachControl(m, 2, normal);
  }

  lemma ParsePrintedControl(c: string, a: Action)
    requires IsControl(c) && WfAction(a)
    ensures ParseControl(c, Table(map["action" := ActionToSpec(a)], false), 2) == Some(Some(NormalAction(a)))
  {
    ParseActionInverse(a);
  }

  lemma ParsePrintedLayer(l: string, controls: map<string, Action>, cs: seq<string>)
    requires ListsControls(cs) && IsLayerId(l) && WfControls(controls)
    ensures ParseLayer(l, Table(map["controls" := Table(ControlTables(CellsOf(controls, cs)), false)], false))
         == Some(LayerConfig(l, NormalControls(controls)))
  {
    ParsePrintedControls(controls, cs);
  }

  lemma ParseEachLayer(m: Entries, layers: map<string, LayerConfig>)
    requires m.Keys == layers.Keys && forall l :: l in m ==> ParseLayer(l, m[l]) == Some(layers[l])
    ensures ParseLayers(m) == Some(layers)
  {
    assert ParseLayers(m).value == layers;
  }

  lemma PrintsNothing(prof: ProfileConfig, cs: seq<string>)
    requires ListsControls(cs) && WfProfile(prof)
    ensures PrintedLayers(prof, cs).Keys == KeptLayers(prof.layers).Keys
    ensures PrintedLayers(prof, cs) == map[] <==> !HasMapping(prof)
  {
    var cells := PrintedLayers(prof, cs);
    forall l | l in prof.layers
      ensures CellsIn(prof.layers, l, cs) == map[] <==> prof.layers[l].controls == map[]
    {
      PrintsEachControl(prof.layers[l].controls, cs);
    }
    if HasMapping(prof) {
      var l :| l in prof.layers && prof.layers[l].controls != map[];
      assert l in cells;
    }
  }

  lemma ParsePrintedLayers(prof: ProfileConfig, cs: seq<string>)
    requires ListsControls(cs) && WfProfile(prof)
    ensures ParseLayers(LayerTables(PrintedLayers(prof, cs))) == Some(KeptLayers(prof.layers))
    ensures PrintedLayers(prof, cs) == map[] <==> !HasMapping(prof)
  {
    var m, kept := LayerTables(PrintedLayers(prof, cs)), KeptLayers(prof.layers);
    PrintsNothing(prof, cs);
    forall l | l in m ensures ParseLayer(l, m[l]) == Some(kept[l]) {
      ParsePrintedLayer(l, prof.layers[l].controls, cs);
    }
    ParseEachLayer(m, kept);
  }

  lemma ParsePrintedProfile(p: string, prof: ProfileConfig, cs: seq<string>)
    requires ListsControls(cs) && IsProfileId(p) && WfProfile(prof)
    ensures ParseProfile(p, Table(map["layers" := Table(LayerTables(PrintedLayers(prof, cs)), false)], false))
         == if MapsGeneral(prof) then Some(ProfileConfig(p, KeptLayers(prof.layers))) else None
  {
    ParsePrintedLayers(prof, cs);
  }

  ghost predicate PrintedAs(cfg: LayeredControlConfig, kept: ProfileCells, cs: seq<string>) {
    && (forall p :: p in kept <==> p in cfg.profiles && HasMapping(cfg.profiles[p]))
    && (forall p :: p in kept ==> kept[p] == PrintedLayers(cfg.profiles[p], cs))
  }

  lemma KeptWhere(profiles: map<string, ProfileConfig>, printed: ProfileCells, ps: seq<string>)
    requires forall p :: p in ps <==> p in profiles
    requires printed.Keys == profiles.Keys
    requires forall p :: p in profiles ==> (printed[p] == map[] <==> !HasMapping(profiles[p]))
    ensures forall p :: p in NonEmpty(printed, ps) <==> p in profiles && HasMapping(profiles[p])
    ensures forall p :: p in NonEmpty(printed, ps) ==> NonEmpty(printed, ps)[p] == printed[p]
  {
  }

  lemma BreaksWhere(profiles: map<string, ProfileConfig>, printed: ProfileCells, ps: seq<string>)
    requires forall p :: p in ps <==> p in profiles
    requires printed.Keys == profiles.Keys
    requires forall p :: p in profiles ==> (printed[p] == map[] <==> !HasMapping(profiles[p]))
    ensures AnyBreaks(printed, ps) <==> exists p :: p in profiles && HasMapping(profiles[p]) && EndsInNewline(p)
  {
    forall p | p in profiles && HasMapping(profiles[p]) && EndsInNewline(p) ensures AnyBreaks(printed, ps) {
      assert p in ps && Breaks(p, printed[p]);
    }
  }

  /** The profiles the text mentions are those that map a control. */
  lemma KeptProfiles(cfg: LayeredControlConfig, printed: ProfileCells, ps: seq<string>, cs: seq<string>)
    requires ListsControls(cs) && WfConfig(cfg) && printed == Printed(cfg.profiles, cs)
    requires forall p :: p in ps <==> p in cfg.profiles
    ensures PrintedAs(cfg, NonEmpty(printed, ps), cs)
    ensures AnyBreaks(printed, ps) <==> exists p :: p in cfg.profiles && HasMapping(cfg.profiles[p]) && EndsInNewline(p)
  {
    EmptyPrinted(cfg, printed, cs);
    KeptWhere(cfg.profiles, printed, ps);
    BreaksWhere(cfg.profiles, printed, ps);
  }

  lemma EmptyPrinted(cfg: LayeredControlConfig, printed: ProfileCells, cs: seq<string>)
    requires ListsControls(cs) && WfConfig(cfg) && printed == Printed(cfg.profiles, cs)
    ensures printed.Keys == cfg.profiles.Keys
    ensures forall p :: p in cfg.profiles ==>
              && printed[p] == PrintedLayers(cfg.profiles[p], cs)
              && (printed[p] == map[] <==> !HasMapping(cfg.profiles[p]))
  {
    forall p | p in cfg.profiles ensures printed[p] == map[] <==> !HasMapping(cfg.profiles[p]) {
      PrintsNothing(cfg.profiles[p], cs);
    }
  }

  /** What parsing makes of the profiles that were printed. */
  function Reparsed(cfg: LayeredControlConfig): Option<map<string, ProfileConfig>> {
    if forall p :: p in cfg.profiles && HasMapping(cfg.profiles[p]) ==> MapsGeneral(cfg.profiles[p])
    then Some(NormalConfig(cfg).profiles) else None
  }

  function MappingGeneral(cfg: LayeredControlConfig): set<string> {
    set p | p in cfg.profiles && MapsGeneral(cfg.profiles[p])
  }

  lemma ReparsedWhen(cfg: LayeredControlConfig, kept: ProfileCells, cs: seq<string>)
    requires PrintedAs(cfg, kept, cs)
    ensures ProfileTables(kept).Keys == NormalConfig(cfg).profiles.Keys
    ensures Reparsed(cfg)
         == if ProfileTables(kept).Keys <= MappingGeneral(cfg) then Some(NormalConfig(cfg).profiles) else None
  {
    assert ProfileTables(kept).Keys == kept.Keys;
  }

  lemma ParseKept(cfg: LayeredControlConfig, kept: ProfileCells, cs: seq<string>)
    requires ListsControls(cs) && WfConfig(cfg) && PrintedAs(cfg, kept, cs)
    ensures ParseProfiles(ProfileTables(kept)) == Reparsed(cfg)
  {
    var m, ok, profiles := ProfileTables(kept), MappingGeneral(cfg), NormalConfig(cfg).profiles;
    ReparsedWhen(cfg, kept, cs);
    forall p | p in m ensures ParseProfile(p, m[p]) == if p in ok then Some(profiles[p]) else None {
      ParseKeptProfile(cfg, kept, p, cs);
    }
    ParseAllExactly(m, ParseProfile, ok, profiles);
  }

  lemma ParseKeptProfile(cfg: LayeredControlConfig, kept: ProfileCells, p: string, cs: seq<string>)
    requires ListsControls(cs) && WfConfig(cfg) && PrintedAs(cfg, kept, cs) && p in ProfileTables(kept)
    ensures p in NormalConfig(cfg).profiles
    ensures ParseProfile(p, ProfileTables(kept)[p])
         == if p in MappingGeneral(cfg) then Some(NormalConfig(cfg).profiles[p]) else None
  {
    ParsePrintedProfile(p, cfg.profiles[p], cs);
  }

  lemma ParseNoProfiles(cfg: LayeredControlConfig)
    ensures ParseConfig(Header(cfg)) == None
  {
    var data := Header(cfg);
    assert Get(data, "schema_version") == Int(cfg.schemaVersion);
    assert "default_profile" in data && "profiles" !in data;
  }

  lemma ParseSomeProfiles(cfg: LayeredControlConfig, tables: Entries)
    requires IsProfileId(cfg.defaultProfile) && IsLayerId(cfg.initialLayer) && tables != map[]
    ensures var profiles := ParseProfiles(tables);
            ParseConfig(Header(cfg)["profiles" := Table(tables, false)])
              == if cfg.schemaVersion == 2 && profiles.Some? && cfg.defaultProfile in profiles.value
                 then Some(cfg.(profiles := profiles.value)) else None
  {
    var data := Header(cfg)["profiles" := Table(tables, false)];
    assert data.Keys == {"schema_version", "default_profile", "initial_layer", "profiles"};
    assert Get(data, "schema_version") == Int(cfg.schemaVersion);
    assert Get(data, "default_profile") == Str(cfg.defaultProfile) && Get(data, "initial_layer") == Str(cfg.initialLayer);
    assert Get(data, "profiles") == Table(tables, false);
  }

  lemma ParseRoot(cfg: LayeredControlConfig, kept: ProfileCells, cs: seq<string>)
    requires ListsControls(cs) && WfConfig(cfg) && PrintedAs(cfg, kept, cs)
    ensures ParseConfig(Root(Header(cfg), kept))
         == if cfg.schemaVersion == 2 && Reparsed(cfg).Some? && cfg.defaultProfile in Reparsed(cfg).value
            then Some(NormalConfig(cfg)) else None
  {
    if kept == map[] {
      ParseNoProfiles(cfg);
      assert cfg.defaultProfile !in kept;
    } else {
      var p :| p in kept;
      assert p in ProfileTables(kept);
      ParseKept(cfg, kept, cs);
      ParseSomeProfiles(cfg, ProfileTables(kept));
    }
  }

  lemma SurvivesWhen(cfg: LayeredControlConfig)
    ensures Survives(cfg)
       <==> && cfg.schemaVersion == 2
            && Reparsed(cfg).Some? && cfg.defaultProfile in Reparsed(cfg).value
            && !exists p :: p in cfg.profiles && HasMapping(cfg.profiles[p]) && EndsInNewline(p)
  {
  }

  lemma LoadOf(text: string, data: Option<Entries>)
    requires Loads(text) == data
    ensures Load(text) == if data.None? then None else ParseConfig(data.value)
  {
  }

  lemma ParseDecoded(cfg: LayeredControlConfig)
    requires WfConfig(cfg)
    ensures (if Decoded(cfg).None? then None else ParseConfig(Decoded(cfg).value))
         == if Survives(cfg) then Some(NormalConfig(cfg)) else None
  {
    var cs, ps := CANONICAL_CONTROLS, Sorted(cfg.profiles.Keys);
    var printed := Printed(cfg.profiles, cs);
    KeptProfiles(cfg, printed, ps, cs);
    SurvivesWhen(cfg);
    if Decoded(cfg).Some? { ParseRoot(cfg, NonEmpty(printed, ps), cs); }
  }

  /** The round trip, exactly: printed and loaded again, a configuration comes back as its normal
      form, and it comes back at all exactly when it has schema version 2, its default profile maps
      a control, and every profile that maps a control maps one in its general layer and has an
      identifier without a final newline. */
  lemma RoundTripExactly(cfg: LayeredControlConfig)
    requires WfConfig(cfg)
    ensures Load(ConfigText(cfg)) == if Survives(cfg) then Some(NormalConfig(cfg)) else None
  {
    LoadsPrinted(cfg);
    LoadOf(ConfigText(cfg), Decoded(cfg));
    ParseDecoded(cfg);
  }

  // ---- Consequences ----

  lemma NormalControlsFixed(controls: map<string, Action>)
    ensures NormalControls(NormalControls(controls)) == NormalControls(controls)
    ensures WfControls(controls) ==> WfControls(NormalControls(controls))
    ensures NormalControls(controls) == map[] <==> controls == map[]
  {
    forall c | c in controls
      ensures NormalAction(NormalAction(controls[c])) == NormalAction(controls[c])
      ensures WfAction(controls[c]) ==> WfAction(NormalAction(controls[c]))
    {
      NormalActionPrints(controls[c]);
    }
    if controls != map[] {
      var c :| c in controls;
      assert c in NormalControls(controls);
    }
  }

  lemma KeptLayersFixed(layers: map<string, LayerConfig>)
    ensures KeptLayers(KeptLayers(layers)) == KeptLayers(layers)
    ensures forall l :: l in KeptLayers(layers) ==> KeptLayers(layers)[l].controls != map[]
    ensures forall l :: l in KeptLayers(layers) ==>
              (WfControls(layers[l].controls) ==> WfControls(KeptLayers(layers)[l].controls))
  {
    forall l | l in layers
      ensures NormalControls(NormalControls(layers[l].controls)) == NormalControls(layers[l].controls)
      ensures WfControls(layers[l].controls) ==> WfControls(NormalControls(layers[l].controls))
      ensures NormalControls(layers[l].controls) == map[] <==> layers[l].controls == map[]
    {
      NormalControlsFixed(layers[l].controls);
    }
  }

  lemma NormalProfileFixed(p: string, prof: ProfileConfig)
    requires HasMapping(prof)
    ensures var prof1 := ProfileConfig(p, KeptLayers(prof.layers));
            && HasMapping(prof1) && ProfileConfig(p, KeptLayers(prof1.layers)) == prof1
            && (WfProfile(prof) ==> WfProfile(prof1))
            && (MapsGeneral(prof) ==> MapsGeneral(prof1))
  {
    KeptLayersFixed(prof.layers);
    var l :| l in prof.layers && prof.layers[l].controls != map[];
    assert l in KeptLayers(prof.layers);
  }

  predicate FixedProfile(p: string, prof: ProfileConfig) {
    && HasMapping(prof) && WfProfile(prof) && MapsGeneral(prof)
    && ProfileConfig(p, KeptLayers(prof.layers)) == prof
  }

  lemma NormalProfilesFixed(cfg: LayeredControlConfig)
    requires WfConfig(cfg) && Survives(cfg)
    ensures forall p :: p in NormalConfig(cfg).profiles ==>
              IsProfileId(p) && !EndsInNewline(p) && FixedProfile(p, NormalConfig(cfg).profiles[p])
  {
    forall p | p in NormalConfig(cfg).profiles ensures FixedProfile(p, NormalConfig(cfg).profiles[p]) {
      NormalProfileFixed(p, cfg.profiles[p]);
    }
  }

  lemma FixedPoint(cfg: LayeredControlConfig)
    requires forall p :: p in cfg.profiles ==> ProfileConfig(p, KeptLayers(cfg.profiles[p].layers)) == cfg.profiles[p]
    requires forall p :: p in cfg.profiles ==> HasMapping(cfg.profiles[p])
    ensures NormalConfig(cfg) == cfg
  {
    var kept := map p | p in cfg.profiles && HasMapping(cfg.profiles[p]) :: ProfileConfig(p, KeptLayers(cfg.profiles[p].layers));
    assert kept == cfg.profiles;
  }

  lemma NormalIsWf(cfg: LayeredControlConfig)
    requires WfConfig(cfg) && Survives(cfg)
    ensures WfConfig(NormalConfig(cfg))
  {
    NormalProfilesFixed(cfg);
  }

  lemma NormalSurvives(cfg: LayeredControlConfig)
    requires WfConfig(cfg) && Survives(cfg)
    ensures Survives(NormalConfig(cfg)) && NormalConfig(NormalConfig(cfg)) == NormalConfig(cfg)
  {
    NormalProfilesFixed(cfg);
    FixedPoint(NormalConfig(cfg));
  }

  /** Loading what was printed is a fixed point: the normal form survives unchanged. */
  lemma NormalFormFixed(cfg: LayeredControlConfig)
    requires WfConfig(cfg) && Survives(cfg)
    ensures Load(ConfigText(NormalConfig(cfg))) == Some(NormalConfig(cfg))
  {
    NormalIsWf(cfg);
    NormalSurvives(cfg);
    RoundTripExactly(NormalConfig(cfg));
  }

  /** The printer is injective up to normal form, hence injective on normal forms. */
  lemma ConfigTextInjective(a: LayeredControlConfig, b: LayeredControlConfig)
    requires WfConfig(a) && WfConfig(b) && Survives(a)
    requires ConfigText(a) == ConfigText(b)
    ensures Survives(b) && NormalConfig(a) == NormalConfig(b)
  {
    RoundTripExactly(a);
    RoundTripExactly(b);
  }

  /** `ConfigDraft.validate`: print, then load the text again. */
  method Validate(cfg: LayeredControlConfig) returns (valid: bool, text: string)
    requires WfConfig(cfg)
    ensures text == ConfigText(cfg)
    ensures valid <==> Survives(cfg)
  {
    text := Serialize(cfg);
    valid := Load(text).Some?;
    RoundTripExactly(cfg);
  }
}
