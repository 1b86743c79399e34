/** The order of the differences (`configurator/diff.py`): the fields first, then what is removed, what
    is added, and what changed, each by name. */
module DiffOrder {
  import opened Wrappers
  import opened ControlModel
  import opened ConfigDiff
  import opened DiffOnce
  import T = Text

  // ---- Ranks and names ----

  /** Kinds of a lower rank come first. */
  predicate Ranked(cs: Changes, rank: Kind -> nat) {
    forall i, j :: 0 <= i < j < |cs| ==> rank(cs[i].kind) <= rank(cs[j].kind)
  }

  predicate Precedes(x: string, y: string) { x == y || T.LexLe(x, y) }

  /** If both changes are under names, the first one's does not come later. */
  ghost predicate NamesInOrder(g: Change, h: Change, prefix: string) {
    forall x, y :: NoDot(x) && NoDot(y) && Under(g.path, prefix, x) && Under(h.path, prefix, y) ==> Precedes(x, y)
  }

  /** Among changes of one rank the names ascend. */
  ghost predicate AscendWithin(cs: Changes, rank: Kind -> nat, prefix: string) {
    forall i, j :: 0 <= i < j < |cs| && rank(cs[i].kind) == rank(cs[j].kind) ==> NamesInOrder(cs[i], cs[j], prefix)
  }

  predicate RankIs(cs: Changes, rank: Kind -> nat, r: nat) { forall ch :: ch in cs ==> rank(ch.kind) == r }

  /** Everything in order up to rank `r`. */
  ghost predicate InOrderTo(cs: Changes, rank: Kind -> nat, prefix: string, r: nat) {
    Ranked(cs, rank) && AscendWithin(cs, rank, prefix) && forall ch :: ch in cs ==> rank(ch.kind) <= r
  }

  lemma NextRank(a: Changes, b: Changes, rank: Kind -> nat, prefix: string, r: nat)
    requires InOrderTo(a, rank, prefix, r) && RankIs(b, rank, r + 1) && AscendWithin(b, rank, prefix)
    ensures InOrderTo(a + b, rank, prefix, r + 1)
  {
    var c := a + b;
    forall i | 0 <= i < |c| ensures c[i] in if i < |a| then a else b {
    }
    forall i, j | 0 <= i < j < |c| ensures rank(c[i].kind) <= rank(c[j].kind) {
      assert c[i] in (if i < |a| then a else b) && c[j] in (if j < |a| then a else b);
    }
    forall i, j | 0 <= i < j < |c| && rank(c[i].kind) == rank(c[j].kind) ensures NamesInOrder(c[i], c[j], prefix) {
      assert c[i] in (if i < |a| then a else b) && c[j] in (if j < |a| then a else b);
      if j < |a| { assert c[i] == a[i] && c[j] == a[j]; } else { assert i >= |a| && c[i] == b[i - |a|] && c[j] == b[j - |a|]; }
    }
  }

  lemma FirstRank(a: Changes, rank: Kind -> nat, prefix: string, r: nat)
    requires RankIs(a, rank, r) && AscendWithin(a, rank, prefix)
    ensures InOrderTo(a, rank, prefix, r)
  {
    forall i, j | 0 <= i < j < |a| ensures rank(a[i].kind) <= rank(a[j].kind) {
      assert a[i] in a && a[j] in a;
    }
  }

  // ---- Names gathered in order ----

  ghost predicate NamesAscend(cs: Changes, prefix: string) {
    forall i, j :: 0 <= i < j < |cs| ==> NamesInOrder(cs[i], cs[j], prefix)
  }

  lemma PieceInOrder(g: Change, h: Change, prefix: string, x: string, y: string)
    requires NoDot(x) && NoDot(y) && Under(g.path, prefix, x) && Under(h.path, prefix, y) && Precedes(x, y)
    ensures NamesInOrder(g, h, prefix)
  {
    forall v, w | NoDot(v) && NoDot(w) && Under(g.path, prefix, v) && Under(h.path, prefix, w) ensures Precedes(v, w) {
      UnderOne(g.path, prefix, x, v);
      UnderOne(h.path, prefix, y, w);
    }
  }

  lemma {:induction false} GatherAscends(xs: seq<string>, f: string -> Changes, prefix: string, kinds: set<Kind>)
    requires forall i, j :: 0 <= i < j < |xs| ==> T.LexLe(xs[i], xs[j])
    requires forall x :: x in xs ==> Piece(f(x), prefix, x, kinds)
    ensures NamesAscend(T.ConcatMap(xs, f), prefix)
  {
    if xs != [] {
      var x, rest := xs[0], xs[1..];
      var a, b := f(x), T.ConcatMap(rest, f);
      assert xs == [x] + rest;
      GatherAscends(rest, f, prefix, kinds);
      forall i, j | 0 <= i < j < |a + b| ensures NamesInOrder((a + b)[i], (a + b)[j], prefix) {
        if j < |a| {
          assert a[i] in a && a[j] in a;
          PieceInOrder(a[i], a[j], prefix, x, x);
        } else if i < |a| {
          LaterName(xs, f, prefix, kinds, a[i], b[j - |a|]);
        }
      }
    }
  }

  lemma LaterName(xs: seq<string>, f: string -> Changes, prefix: string, kinds: set<Kind>, g: Change, h: Change)
    requires xs != [] && forall i, j :: 0 <= i < j < |xs| ==> T.LexLe(xs[i], xs[j])
    requires forall x :: x in xs ==> Piece(f(x), prefix, x, kinds)
    requires g in f(xs[0]) && h in T.ConcatMap(xs[1..], f)
    ensures NamesInOrder(g, h, prefix)
  {
    InGather(xs[1..], f, h);
    var y :| y in xs[1..] && h in f(y);
    var j :| 0 <= j < |xs[1..]| && xs[1..][j] == y;
    assert xs[j + 1] == y;
    PieceInOrder(g, h, prefix, xs[0], y);
  }

  lemma SortedAscends(names: set<string>, f: string -> Changes, prefix: string, kinds: set<Kind>)
    requires forall x :: x in names ==> Piece(f(x), prefix, x, kinds)
    ensures NamesAscend(T.ConcatMap(T.Sorted(names), f), prefix)
  {
    T.SortedIncreases(names);
    GatherAscends(T.Sorted(names), f, prefix, kinds);
  }

  lemma NamesListedInOrder(names: set<string>, prefix: string, kind: Kind, risk: Risk)
    requires forall x :: x in names ==> NoDot(x)
    ensures NamesAscend(T.ConcatMap(T.Sorted(names), One(prefix, kind, risk)), prefix)
  {
    forall x | x in names ensures Piece(One(prefix, kind, risk)(x), prefix, x, {kind}) { OnePiece(prefix, x, kind, risk); }
    SortedAscends(names, One(prefix, kind, risk), prefix, {kind});
  }

  /** Removed, then added, then changed, each by name. */
  lemma SectionsInOrder(before: set<string>, after: set<string>, f: string -> Changes, prefix: string,
                        r: Kind, a: Kind, kinds: set<Kind>, rank: Kind -> nat, n: nat)
    requires forall x :: x in before + after ==> NoDot(x)
    requires forall x :: x in before * after ==> Piece(f(x), prefix, x, kinds)
    requires rank(r) == n && rank(a) == n + 1 && forall k :: k in kinds ==> rank(k) == n + 2
    ensures var cs := T.ConcatMap(T.Sorted(before - after), One(prefix, r, HIGH))
                      + T.ConcatMap(T.Sorted(after - before), One(prefix, a, MEDIUM))
                      + T.ConcatMap(T.Sorted(before * after), f);
            InOrderTo(cs, rank, prefix, n + 2) && forall ch :: ch in cs ==> n <= rank(ch.kind)
  {
    var removed := T.ConcatMap(T.Sorted(before - after), One(prefix, r, HIGH));
    var added := T.ConcatMap(T.Sorted(after - before), One(prefix, a, MEDIUM));
    var changed := T.ConcatMap(T.Sorted(before * after), f);
    NamesOnce(before - after, prefix, r, HIGH);
    NamesOnce(after - before, prefix, a, MEDIUM);
    SortedGather(before * after, f, prefix, kinds);
    NamesListedInOrder(before - after, prefix, r, HIGH);
    NamesListedInOrder(after - before, prefix, a, MEDIUM);
    SortedAscends(before * after, f, prefix, kinds);
    FirstRank(removed, rank, prefix, n);
    NextRank(removed, added, rank, prefix, n);
    NextRank(removed + added, changed, rank, prefix, n + 1);
  }

  // ---- The report ----

  function TopRank(k: Kind): nat {
    match k
    case InitialLayerChanged => 0
    case DefaultProfileChanged => 1
    case ProfileRemoved => 2
    case ProfileAdded => 3
    case _ => 4
  }

  function LayerRank(k: Kind): nat {
    match k case LayerRemoved => 0 case LayerAdded => 1 case _ => 2
  }

  lemma KindRanks()
    ensures forall k :: k in LAYER_KINDS ==> TopRank(k) == 4
    ensures forall k :: k in CONTROL_KINDS ==> LayerRank(k) == 2
  {
  }

  lemma AllProfilesInOrder(b: Profiles, d: Profiles)
    requires WfProfiles(b) && WfProfiles(d)
    ensures InOrderTo(AllProfileChanges(b, d), TopRank, "profiles.", 4)
    ensures forall ch :: ch in AllProfileChanges(b, d) ==> TopRank(ch.kind) >= 2
  {
    forall p | p in b.Keys + d.Keys ensures NoDot(p) { ProfileHasNoDot(p); }
    forall p | p in b.Keys * d.Keys ensures Piece(ProfilesDiffer(b, d)(p), "profiles.", p, LAYER_KINDS) { ProfilePiece(b, d, p); }
    KindRanks();
    SectionsInOrder(b.Keys, d.Keys, ProfilesDiffer(b, d), "profiles.", ProfileRemoved, ProfileAdded, LAYER_KINDS, TopRank, 2);
  }

  lemma FieldsBefore(initial: Changes, default_: Changes, rest: Changes, prefix: string)
    requires |initial| <= 1 && AllOf(initial, {InitialLayerChanged}) && |default_| <= 1 && AllOf(default_, {DefaultProfileChanged})
    requires InOrderTo(rest, TopRank, prefix, 4) && forall ch :: ch in rest ==> TopRank(ch.kind) >= 2
    ensures InOrderTo(initial + default_ + rest, TopRank, prefix, 4)
  {
    var first := initial + default_;
    assert forall i :: 0 <= i < |first| ==> first[i] in initial || first[i] in default_;
    var c := first + rest;
    forall i, j | 0 <= i < j < |c|
      ensures TopRank(c[i].kind) <= TopRank(c[j].kind)
      ensures TopRank(c[i].kind) == TopRank(c[j].kind) ==> NamesInOrder(c[i], c[j], prefix)
    {
      if j < |first| {
        assert c[i] == initial[0] && c[j] == default_[0];
        assert initial[0] in initial && default_[0] in default_;
      } else if i < |first| {
        assert c[i] in initial || c[i] in default_;
        assert c[j] in rest;
      } else {
        assert c[i] == rest[i - |first|] && c[j] == rest[j - |first|];
      }
    }
    forall ch | ch in c ensures TopRank(ch.kind) <= 4 {
    }
  }

  /** The initial layer, the default profile, the profiles removed, those added, and the changes inside
      the others; by profile name within each. */
  lemma DiffInOrder(b: LayeredControlConfig, d: LayeredControlConfig)
    requires WfConfig(b) && WfConfig(d)
    ensures Ranked(Diff(b, d), TopRank) && AscendWithin(Diff(b, d), TopRank, "profiles.")
  {
    var initial := FieldChange("initial_layer", InitialLayerChanged, b.initialLayer, d.initialLayer);
    var default_ := FieldChange("default_profile", DefaultProfileChanged, b.defaultProfile, d.defaultProfile);
    AllProfilesInOrder(b.profiles, d.profiles);
    FieldsBefore(initial, default_, AllProfileChanges(b.profiles, d.profiles), "profiles.");
  }

  /** Inside a profile: the layers removed, those added, and the changes inside the others; by layer name
      within each. */
  lemma ProfileInOrder(path: string, b: ProfileConfig, d: ProfileConfig)
    requires WfProfile(b) && WfProfile(d)
    ensures Ranked(ProfileChanges(path, b, d), LayerRank) && AscendWithin(ProfileChanges(path, b, d), LayerRank, path + ".layers.")
  {
    var prefix := path + ".layers.";
    forall l | l in b.layers.Keys + d.layers.Keys ensures NoDot(l) { LayerHasNoDot(l); }
    forall l | l in b.layers.Keys * d.layers.Keys ensures Piece(LayersDiffer(prefix, b, d)(l), prefix, l, CONTROL_KINDS) {
      LayerPiece(prefix, b, d, l);
    }
    KindRanks();
    SectionsInOrder(b.layers.Keys, d.layers.Keys, LayersDiffer(prefix, b, d), prefix, LayerRemoved, LayerAdded, CONTROL_KINDS, LayerRank, 0);
  }

  /** Inside a layer: by control name. */
  lemma LayerInOrder(path: string, b: Controls, d: Controls)
    requires WfControls(b) && WfControls(d)
    ensures NamesAscend(LayerChanges(path, b, d), path + ".controls.")
  {
    forall c | c in b.Keys + d.Keys ensures Piece(ControlsDiffer(path, b, d)(c), path + ".controls.", c, CONTROL_KINDS) {
      ControlHasNoDot(c);
      ControlPiece(path, b, d, c);
    }
    SortedAscends(b.Keys + d.Keys, ControlsDiffer(path, b, d), path + ".controls.", CONTROL_KINDS);
  }

  ghost predicate IsStep(ch: Change, path: string, n: nat) { exists m: nat :: m < n && ch.path == StepPath(path, m) }

  ghost predicate StepsAscend(cs: Changes, path: string, n: nat) {
    && (forall i :: 0 <= i < |cs| ==> IsStep(cs[i], path, n))
    && forall i, j, m, k :: 0 <= i < j < |cs| && cs[i].path == StepPath(path, m) && cs[j].path == StepPath(path, k) ==> m < k
  }

  lemma StepsAscendSnoc(before: Changes, last: Changes, path: string, n: nat)
    requires StepsAscend(before, path, n) && |last| <= 1 && forall ch :: ch in last ==> ch.path == StepPath(path, n)
    ensures StepsAscend(before + last, path, n + 1)
  {
    var cs := before + last;
    forall i | 0 <= i < |cs| ensures IsStep(cs[i], path, n + 1) {
      if i < |before| {
        assert IsStep(before[i], path, n);
        var m: nat :| m < n && before[i].path == StepPath(path, m);
        assert cs[i].path == StepPath(path, m);
      } else {
        assert cs[i] in last && cs[i].path == StepPath(path, n);
      }
    }
    forall i, j, m, k | 0 <= i < j < |cs| && cs[i].path == StepPath(path, m) && cs[j].path == StepPath(path, k) ensures m < k {
      if j < |before| {
        assert before[i].path == StepPath(path, m) && before[j].path == StepPath(path, k);
      } else {
        assert cs[j] in last && cs[i] == before[i];
        assert IsStep(before[i], path, n);
        var m1: nat :| m1 < n && before[i].path == StepPath(path, m1);
        StepPathsDiffer(path, m, m1);
        StepPathsDiffer(path, k, n);
      }
    }
  }

  /** Inside a control: the steps by index, and the change of the whole action last. */
  lemma {:induction false} StepsInOrder(path: string, b: seq<Action>, d: seq<Action>, n: nat)
    ensures StepsAscend(StepChanges(path, b, d, n), path, n)
  {
    if n > 0 {
      StepsInOrder(path, b, d, n - 1);
      StepsAscendSnoc(StepChanges(path, b, d, n - 1), StepChange(StepPath(path, n - 1), StepAt(b, n - 1), StepAt(d, n - 1)), path, n - 1);
    }
  }

  lemma ActionChangeLast(path: string, b: Option<Action>, d: Option<Action>)
    ensures var cs := ControlChanges(path, b, d);
            forall i :: 0 <= i < |cs| && cs[i].kind == ControlActionChanged ==> i == |cs| - 1
  {
    if b.Some? && d.Some? {
      SubOnce(path, b.value, d.value);
      var sub := SubChanges(path, b.value, d.value);
      assert forall i :: 0 <= i < |sub| ==> sub[i] in sub && sub[i].kind in SUB_KINDS;
    }
  }
}
