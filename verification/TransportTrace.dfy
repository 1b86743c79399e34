/** What holds of every trace the decoder emits, over any sequence of fed events and resets. */
module TransportTrace {
  import opened Wrappers
  import opened Codebook
  import opened ControlModel
  import opened TransportParser

  datatype Input = Key(event: RawKeyEvent) | ResetAt(ns: nat)

  function Step(c: Settings, s: State, x: Input): (State, Trace) {
    match x
    case Key(e) => Feed(c, s, e)
    case ResetAt(ns) => Reset(c, s, ns)
  }

  /** The state and the whole trace after a run from the initial state. */
  function Run(c: Settings, xs: seq<Input>): (State, Trace) {
    if xs == [] then (INITIAL, [])
    else
      var (s, t) := Run(c, xs[..|xs| - 1]);
      var (s1, out) := Step(c, s, xs[|xs| - 1]);
      (s1, t + out)
  }

  function One(b: bool): nat { if b then 1 else 0 }

  // ---- Pairing ----

  /** The press of `control` that no later release has answered. */
  function Pending(t: Trace, control: PhysicalControl): Option<ControlEvent> {
    if t == [] then None
    else
      var e := t[|t| - 1];
      if e.control != control then Pending(t[..|t| - 1], control)
      else if e.phase == Down then Some(e)
      else None
  }

  /** Presses only when nothing is pending, releases only when something is. */
  predicate Paired(t: Trace) {
    t == [] ||
    (var before, e := t[..|t| - 1], t[|t| - 1];
     Paired(before) && (Pending(before, e.control).None? <==> e.phase == Down))
  }

  /** Every release carries the code of the press it answers. */
  predicate CodesMatch(t: Trace) {
    t == [] ||
    (var before, e := t[..|t| - 1], t[|t| - 1];
     && CodesMatch(before)
     && (e.phase == Up && Pending(before, e.control).Some? ==> Pending(before, e.control).value.code == e.code))
  }

  lemma Snoc(t: Trace, e: ControlEvent)
    ensures forall k :: Pending(t + [e], k)
              == if e.control != k then Pending(t, k) else if e.phase == Down then Some(e) else None
    ensures Paired(t + [e]) <==> Paired(t) && (Pending(t, e.control).None? <==> e.phase == Down)
    ensures CodesMatch(t + [e]) <==>
              CodesMatch(t) && (e.phase == Up && Pending(t, e.control).Some? ==> Pending(t, e.control).value.code == e.code)
  {
    assert (t + [e])[..|t|] == t;
  }

  // ---- The invariant ----

  /** The held entry was decoded by the book, shifted or not. */
  predicate Decoded(c: Settings, h: Held) {
    && IsFunctionKey(h.key)
    && (Lookup(c.book, h.key, []) == Some(h.control) || Lookup(c.book, h.key, [SHIFT]) == Some(h.control))
  }

  predicate HeldOk(c: Settings, held: seq<Held>) {
    && (forall i :: 0 <= i < |held| ==> Decoded(c, held[i]))
    && (forall i, j :: 0 <= i < j < |held| ==> held[i].key != held[j].key)
  }

  /** The controls of two held keys differ, because a control has one code and a code one key. */
  lemma HeldControlsDiffer(c: Settings, g: Held, h: Held)
    requires Consistent(c.book) && Decoded(c, g) && Decoded(c, h) && g.key != h.key
    ensures g.control != h.control
  {
    if g.control == h.control {
      var gm := if Lookup(c.book, g.key, []) == Some(g.control) then [] else [SHIFT];
      var hm := if Lookup(c.book, h.key, []) == Some(h.control) then [] else [SHIFT];
      LookupInjective(c.book, g.key, gm, h.key, hm);
      ReprInjective(TransportCode(g.key, gm), TransportCode(h.key, hm));
    }
  }

  /** The source's fallback for a held control without a code is never taken. */
  lemma DecodedHasCode(c: Settings, h: Held)
    requires Consistent(c.book) && Decoded(c, h)
    ensures CodeOf(c.book, h.control).Some?
  {
    var r := if Lookup(c.book, h.key, []) == Some(h.control) then Repr(TransportCode(h.key, []))
             else Repr(TransportCode(h.key, [SHIFT]));
    assert r in c.book.codeToControl;
  }

  predicate Holds(held: seq<Held>, k: PhysicalControl) { exists i :: 0 <= i < |held| && held[i].control == k }

  /** The presses no release has answered are those of the held controls. */
  ghost predicate Unanswered(held: seq<Held>, t: Trace) {
    forall k :: Pending(t, k).Some? <==> Holds(held, k)
  }

  /** A held control has the code of its press. */
  ghost predicate HeldCodes(book: Book, held: seq<Held>, t: Trace) {
    forall i :: 0 <= i < |held| && Pending(t, held[i].control).Some? ==>
      CodeOf(book, held[i].control) == Some(Pending(t, held[i].control).value.code)
  }

  /** The control found by a plain or shifted function key is recorded with that very code. */
  predicate CodeRecorded(book: Book, key: string, shift: bool) {
    var found := Lookup(book, key, Modifiers(shift));
    found.Some? ==> CodeOf(book, found.value) == Some(TransportCode(key, Modifiers(shift)))
  }

  ghost predicate CodesRecorded(book: Book) {
    forall key, shift :: IsFunctionKey(key) ==> CodeRecorded(book, key, shift)
  }

  ghost predicate Inv(c: Settings, held: seq<Held>, t: Trace) {
    && HeldOk(c, held) && Paired(t) && Unanswered(held, t)
    && (CodesRecorded(c.book) ==> CodesMatch(t) && HeldCodes(c.book, held, t))
  }

  lemma HoldsSnoc(held: seq<Held>, h: Held)
    ensures forall k :: Holds(held + [h], k) <==> Holds(held, k) || h.control == k
  {
    var held1 := held + [h];
    forall k | Holds(held, k) || h.control == k ensures Holds(held1, k) {
      if h.control == k {
        assert held1[|held|].control == k;
      } else {
        var i :| 0 <= i < |held| && held[i].control == k;
        assert held1[i].control == k;
      }
    }
  }

  lemma PressKeepsHeld(c: Settings, held: seq<Held>, h: Held)
    requires Consistent(c.book) && HeldOk(c, held) && Decoded(c, h)
    requires forall g :: g in held ==> g.key != h.key
    ensures HeldOk(c, held + [h]) && !Holds(held, h.control)
  {
    forall i | 0 <= i < |held| ensures held[i].control != h.control && held[i].key != h.key {
      assert held[i] in held;
      HeldControlsDiffer(c, held[i], h);
    }
  }

  lemma PressKeepsCodes(book: Book, held: seq<Held>, t: Trace, h: Held, e: ControlEvent)
    requires HeldCodes(book, held, t) && !Holds(held, h.control)
    requires e.control == h.control && e.phase == Down && CodeOf(book, h.control) == Some(e.code)
    ensures HeldCodes(book, held + [h], t + [e])
  {
    Snoc(t, e);
    var held1 := held + [h];
    forall i | 0 <= i < |held1| && Pending(t + [e], held1[i].control).Some?
      ensures CodeOf(book, held1[i].control) == Some(Pending(t + [e], held1[i].control).value.code)
    {
      if i < |held| { assert held1[i] == held[i] && held[i].control != h.control; }
    }
  }

  lemma PressKeeps(c: Settings, held: seq<Held>, t: Trace, key: string, shift: bool, e: ControlEvent)
    requires Consistent(c.book) && Inv(c, held, t)
    requires IsFunctionKey(key) && Lookup(c.book, key, Modifiers(shift)) == Some(e.control)
    requires forall h :: h in held ==> h.key != key
    requires e.phase == Down && e.code == TransportCode(key, Modifiers(shift))
    ensures Inv(c, held + [Held(key, e.control)], t + [e])
  {
    var h := Held(key, e.control);
    PressKeepsHeld(c, held, h);
    Snoc(t, e);
    HoldsSnoc(held, h);
    if CodesRecorded(c.book) {
      assert CodeRecorded(c.book, key, shift);
      PressKeepsCodes(c.book, held, t, h, e);
    }
  }

  lemma WithoutAt<T>(s: seq<T>, i: nat)
    requires i < |s|
    ensures |Without(s, i)| == |s| - 1
    ensures forall j :: 0 <= j < |s| - 1 ==> Without(s, i)[j] == s[if j < i then j else j + 1]
    ensures forall j :: 0 <= j < |s| && j != i ==> Without(s, i)[if j < i then j else j - 1] == s[j]
  {
  }

  lemma OthersKeepControls(c: Settings, held: seq<Held>, i: nat)
    requires Consistent(c.book) && HeldOk(c, held) && i < |held|
    ensures forall j :: 0 <= j < |held| && j != i ==> held[j].control != held[i].control
  {
    forall j | 0 <= j < |held| && j != i ensures held[j].control != held[i].control {
      HeldControlsDiffer(c, held[j], held[i]);
    }
  }

  lemma StaysHeld(held: seq<Held>, i: nat, k: PhysicalControl)
    requires i < |held| && Holds(held, k) && k != held[i].control
    ensures Holds(Without(held, i), k)
  {
    var j :| 0 <= j < |held| && held[j].control == k;
    WithoutAt(held, i);
    assert Without(held, i)[if j < i then j else j - 1].control == k;
  }

  lemma WasHeld(held: seq<Held>, i: nat, k: PhysicalControl)
    requires i < |held| && Holds(Without(held, i), k)
    ensures exists j :: 0 <= j < |held| && j != i && held[j].control == k
  {
    var j :| 0 <= j < |held| - 1 && Without(held, i)[j].control == k;
    WithoutAt(held, i);
    assert held[if j < i then j else j + 1].control == k;
  }

  lemma HoldsWithout(held: seq<Held>, i: nat)
    requires i < |held| && forall j :: 0 <= j < |held| && j != i ==> held[j].control != held[i].control
    ensures forall k :: Holds(Without(held, i), k) <==> Holds(held, k) && k != held[i].control
  {
    forall k | Holds(held, k) && k != held[i].control ensures Holds(Without(held, i), k) { StaysHeld(held, i, k); }
    forall k | Holds(Without(held, i), k) ensures Holds(held, k) && k != held[i].control { WasHeld(held, i, k); }
  }

  lemma ReleaseKeepsHeld(c: Settings, held: seq<Held>, i: nat)
    requires HeldOk(c, held) && i < |held|
    ensures HeldOk(c, Without(held, i))
  {
    WithoutAt(held, i);
  }

  lemma ReleaseKeepsCodes(book: Book, held: seq<Held>, t: Trace, i: nat, e: ControlEvent)
    requires HeldCodes(book, held, t) && i < |held| && e.control == held[i].control && e.phase == Up
    ensures HeldCodes(book, Without(held, i), t + [e])
  {
    WithoutAt(held, i);
    Snoc(t, e);
  }

  lemma ReleaseKeeps(c: Settings, held: seq<Held>, t: Trace, i: nat, e: ControlEvent)
    requires Consistent(c.book) && Inv(c, held, t) && i < |held|
    requires e.phase == Up && e.control == held[i].control && CodeOf(c.book, e.control) == Some(e.code)
    ensures Inv(c, Without(held, i), t + [e])
  {
    Snoc(t, e);
    OthersKeepControls(c, held, i);
    HoldsWithout(held, i);
    ReleaseKeepsHeld(c, held, i);
    assert Pending(t, e.control).Some? by { assert Holds(held, held[i].control); }
    if CodesRecorded(c.book) { ReleaseKeepsCodes(c.book, held, t, i, e); }
  }

  lemma ReleaseFirstKeeps(c: Settings, held: seq<Held>, t: Trace, ns: nat)
    requires Consistent(c.book) && Inv(c, held, t) && held != []
    ensures Inv(c, held[1..], t + Releases(c, held, ns)[..1])
    ensures Releases(c, held, ns)[1..] == Releases(c, held[1..], ns)
  {
    var e := Releases(c, held, ns)[0];
    DecodedHasCode(c, held[0]);
    ReleaseKeeps(c, held, t, 0, e);
    assert Without(held, 0) == held[1..];
    assert Releases(c, held, ns)[..1] == [e];
  }

  lemma {:induction false} ReleasesKeep(c: Settings, held: seq<Held>, t: Trace, ns: nat)
    requires Consistent(c.book) && Inv(c, held, t)
    ensures Inv(c, [], t + Releases(c, held, ns))
    decreases |held|
  {
    var out := Releases(c, held, ns);
    if held == [] {
      assert t + out == t;
    } else {
      ReleaseFirstKeeps(c, held, t, ns);
      ReleasesKeep(c, held[1..], t + out[..1], ns);
      AppendInTwo(t, out);
    }
  }

  lemma AppendInTwo(t: Trace, out: Trace)
    requires out != []
    ensures t + out == t + out[..1] + out[1..]
  {
  }

  lemma PressStepKeeps(c: Settings, s: State, t: Trace, e: RawKeyEvent)
    requires Consistent(c.book) && Inv(c, s.held, t) && IsFunctionKey(e.code)
    ensures Inv(c, Press(c, s, e).0.held, t + Press(c, s, e).1)
  {
    var out := Press(c, s, e).1;
    if out == [] {
      assert t + out == t;
    } else {
      PressKeeps(c, s.held, t, e.code, s.shift, out[0]);
    }
  }

  lemma ReleaseStepKeeps(c: Settings, s: State, t: Trace, e: RawKeyEvent)
    requires Consistent(c.book) && Inv(c, s.held, t)
    ensures Inv(c, Release(c, s, e).0.held, t + Release(c, s, e).1)
  {
    var out := Release(c, s, e).1;
    if out == [] {
      assert t + out == t;
    } else {
      var i := FindKey(s.held, e.code).value;
      DecodedHasCode(c, s.held[i]);
      ReleaseKeeps(c, s.held, t, i, out[0]);
    }
  }

  function Advanced(c: Settings, s: State, e: RawKeyEvent): State {
    Advance(c, s.(lastNs := e.timestampNs), e.timestampNs)
  }

  /** Only presses and releases of function keys change what is held. */
  lemma FeedCases(c: Settings, s: State, e: RawKeyEvent)
    ensures Advanced(c, s, e).held == s.held
    ensures var (s1, out) := Feed(c, s, e);
            || (out == [] && s1.held == s.held)
            || (IsFunctionKey(e.code) && (s1, out) == Press(c, Advanced(c, s, e), e))
            || (s1, out) == Release(c, Advanced(c, s, e), e)
  {
  }

  lemma FeedKeeps(c: Settings, s: State, t: Trace, e: RawKeyEvent)
    requires Consistent(c.book) && Inv(c, s.held, t)
    ensures Inv(c, Feed(c, s, e).0.held, t + Feed(c, s, e).1)
  {
    var (s1, out) := Feed(c, s, e);
    FeedCases(c, s, e);
    if out == [] && s1.held == s.held {
      assert t + out == t;
    } else if IsFunctionKey(e.code) && (s1, out) == Press(c, Advanced(c, s, e), e) {
      PressStepKeeps(c, Advanced(c, s, e), t, e);
    } else {
      ReleaseStepKeeps(c, Advanced(c, s, e), t, e);
    }
  }

  lemma {:induction false} RunInv(c: Settings, xs: seq<Input>)
    requires Consistent(c.book)
    ensures Inv(c, Run(c, xs).0.held, Run(c, xs).1)
  {
    if xs != [] {
      var before := xs[..|xs| - 1];
      var (s, t) := Run(c, before);
      RunInv(c, before);
      match xs[|xs| - 1]
      case Key(e) => FeedKeeps(c, s, t, e);
      case ResetAt(ns) => ReleasesKeep(c, s.held, t, ns);
    }
  }

  // ---- Main results ----

  /** A reset releases the held controls in the order they were pressed, at its time, as synthetic. */
  lemma {:induction false} ReleasesInOrder(c: Settings, held: seq<Held>, ns: nat)
    ensures var out := Releases(c, held, ns);
            forall i :: 0 <= i < |held| ==>
              && out[i].sourceId == c.sourceId && out[i].timestampNs == ns && out[i].phase == Up && out[i].synthetic
              && out[i].control == held[i].control
              && (CodeOf(c.book, held[i].control).Some? ==> CodeOf(c.book, held[i].control) == Some(out[i].code))
  {
    if held != [] { ReleasesInOrder(c, held[1..], ns); }
  }

  /** The controls held down. */
  function HeldControls(s: State): set<PhysicalControl> {
    set i | 0 <= i < |s.held| :: s.held[i].control
  }

  /** Over any run: presses and releases of each control alternate, the controls with an unanswered
      press are exactly those held, no control is held twice, and every held control has a code, so
      the fallback codes are never used. */
  lemma RunPairs(c: Settings, xs: seq<Input>)
    requires Consistent(c.book)
    ensures var (s, t) := Run(c, xs);
            && Paired(t)
            && (forall k :: Pending(t, k).Some? <==> k in HeldControls(s))
            && |HeldControls(s)| == |s.held|
            && forall h :: h in s.held ==> CodeOf(c.book, h.control).Some?
  {
    var (s, t) := Run(c, xs);
    RunInv(c, xs);
    HeldControlsCount(c, s.held);
    forall h | h in s.held ensures CodeOf(c.book, h.control).Some? {
      var i :| 0 <= i < |s.held| && s.held[i] == h;
      DecodedHasCode(c, s.held[i]);
    }
  }

  lemma HeldControlsCount(c: Settings, held: seq<Held>)
    requires Consistent(c.book) && HeldOk(c, held)
    ensures |set i | 0 <= i < |held| :: held[i].control| == |held|
  {
    forall i, j | 0 <= i < j < |held| ensures held[i].control != held[j].control {
      HeldControlsDiffer(c, held[i], held[j]);
    }
    DistinctControlsCount(held);
  }

  lemma {:induction false} DistinctControlsCount(held: seq<Held>)
    requires forall i, j :: 0 <= i < j < |held| ==> held[i].control != held[j].control
    ensures |set i | 0 <= i < |held| :: held[i].control| == |held|
  {
    if held != [] {
      var n := |held| - 1;
      DistinctControlsCount(held[..n]);
      var others := set i | 0 <= i < n :: held[..n][i].control;
      assert (set i | 0 <= i < |held| :: held[i].control) == others + {held[n].control};
    }
  }

  lemma RunStep(c: Settings, xs: seq<Input>, x: Input)
    ensures Run(c, xs + [x]).0 == Step(c, Run(c, xs).0, x).0
    ensures Run(c, xs + [x]).1 == Run(c, xs).1 + Step(c, Run(c, xs).0, x).1
  {
    assert (xs + [x])[..|xs|] == xs;
  }

  function At0(c: Settings, code: string, value: int): Input { Key(RawKeyEvent(c.sourceId, 0, code, value)) }

  /** Shift if wanted, then the key down and up. */
  function Tap(c: Settings, key: string, shift: bool): seq<Input> {
    (if shift then [At0(c, SHIFT, 1)] else []) + [At0(c, key, 1)] + [At0(c, key, 0)]
  }

  lemma RunShift(c: Settings, shift: bool)
    ensures var xs := if shift then [At0(c, SHIFT, 1)] else [];
            Run(c, xs) == (INITIAL.(shift := shift), [])
  {
    assert Run(c, []) == (INITIAL, []);
    if shift {
      RunStep(c, [], At0(c, SHIFT, 1));
      assert [] + [At0(c, SHIFT, 1)] == [At0(c, SHIFT, 1)];
    }
  }

  lemma RunTap(c: Settings, key: string, shift: bool)
    requires IsFunctionKey(key) && Lookup(c.book, key, Modifiers(shift)).Some?
    ensures var control := Lookup(c.book, key, Modifiers(shift)).value;
            Run(c, Tap(c, key, shift)).1
              == [ControlEvent(c.sourceId, 0, control, Down, TransportCode(key, Modifiers(shift)), false)]
                 + [ControlEvent(c.sourceId, 0, control, Up, ReleaseCode(c, control, key), false)]
  {
    assert key != SHIFT by { assert key[4] == 'F' && SHIFT[4] == 'L'; }
    var xs := if shift then [At0(c, SHIFT, 1)] else [];
    RunShift(c, shift);
    RunStep(c, xs, At0(c, key, 1));
    RunStep(c, xs + [At0(c, key, 1)], At0(c, key, 0));
  }

  /** A key whose control is recorded with another code breaks the pairing of codes when tapped. */
  lemma TapBreaksCodes(c: Settings, key: string, shift: bool)
    requires Consistent(c.book) && IsFunctionKey(key) && !CodeRecorded(c.book, key, shift)
    ensures !CodesMatch(Run(c, Tap(c, key, shift)).1)
  {
    var control := Lookup(c.book, key, Modifiers(shift)).value;
    DecodedHasCode(c, Held(key, control));
    RunTap(c, key, shift);
    var down := ControlEvent(c.sourceId, 0, control, Down, TransportCode(key, Modifiers(shift)), false);
    Snoc([], down);
    assert [] + [down] == [down];
    Snoc([down], ControlEvent(c.sourceId, 0, control, Up, ReleaseCode(c, control, key), false));
  }

  /** Over all runs, whatever shift did in between, a release carries the very code of the press it
      answers, exactly when the book records the control of every plain or shifted function key with
      the code that finds it. */
  lemma RunKeepsCodes(c: Settings)
    requires Consistent(c.book)
    ensures (forall xs :: CodesMatch(Run(c, xs).1)) <==> CodesRecorded(c.book)
  {
    if CodesRecorded(c.book) {
      forall xs ensures CodesMatch(Run(c, xs).1) { RunInv(c, xs); }
    } else {
      var key, shift :| IsFunctionKey(key) && !CodeRecorded(c.book, key, shift);
      TapBreaksCodes(c, key, shift);
    }
  }

  /** A book of plain and shifted function keys alone, such as the default one, does. */
  lemma ShiftOnlyRecords(book: Book)
    requires Consistent(book) && ShiftOnly(book)
    ensures CodesRecorded(book)
  {
    forall key, shift | IsFunctionKey(key) ensures CodeRecorded(book, key, shift) { LookupInverse(book, key, shift); }
  }

  // ---- Reading the pairing off the trace ----

  /** The phases of one control, in order. */
  function Phases(t: Trace, control: PhysicalControl): seq<ControlPhase> {
    if t == [] then []
    else
      var e := t[|t| - 1];
      Phases(t[..|t| - 1], control) + if e.control == control then [e.phase] else []
  }

  function Count(t: Trace, control: PhysicalControl, phase: ControlPhase): nat {
    if t == [] then 0
    else
      var e := t[|t| - 1];
      Count(t[..|t| - 1], control, phase) + if e.control == control && e.phase == phase then 1 else 0
  }

  /** In a paired trace each control goes down, up, down, ... and has as many releases as presses,
      give or take the pending one. */
  lemma {:induction false} PairedAlternates(t: Trace, control: PhysicalControl)
    requires Paired(t)
    ensures var ps := Phases(t, control);
            && (forall i :: 0 <= i < |ps| ==> ps[i] == if i % 2 == 0 then Down else Up)
            && (|ps| % 2 == 1 <==> Pending(t, control).Some?)
    ensures Count(t, control, Down) == Count(t, control, Up) + if Pending(t, control).Some? then 1 else 0
  {
    if t != [] {
      PairedAlternates(t[..|t| - 1], control);
    }
  }

  // ---- Shift, told from the history alone ----

  /** The latest accepted time: rejected events and other sources do not move it. */
  function Clock(c: Settings, xs: seq<Input>): nat {
    if xs == [] then 0
    else
      var before := Clock(c, xs[..|xs| - 1]);
      match xs[|xs| - 1]
      case Key(e) => if e.sourceId == c.sourceId && e.timestampNs >= before then e.timestampNs else before
      case ResetAt(ns) => if ns > before then ns else before
  }

  predicate Accepted(c: Settings, xs: seq<Input>, j: nat)
    requires j < |xs|
  {
    xs[j].Key? && xs[j].event.sourceId == c.sourceId && xs[j].event.timestampNs >= Clock(c, xs[..j])
  }

  predicate ShiftEvent(c: Settings, xs: seq<Input>, j: nat, value: int)
    requires j < |xs|
  {
    Accepted(c, xs, j) && xs[j].event.code == SHIFT && xs[j].event.value == value
  }

  /** No control has an unanswered press in what was emitted before input `j`. */
  ghost predicate NothingHeldBefore(c: Settings, xs: seq<Input>, j: nat)
    requires j < |xs|
  {
    forall k :: Pending(Run(c, xs[..j]).1, k).None?
  }

  /** Input `j` ends the effect of the shift press at `i`: another press, a release, a reset, or an
      accepted event that finds the press too old while nothing is held. */
  ghost predicate Ends(c: Settings, xs: seq<Input>, i: nat, j: nat)
    requires i < j < |xs| && xs[i].Key?
  {
    || xs[j].ResetAt?
    || ShiftEvent(c, xs, j, 1)
    || ShiftEvent(c, xs, j, 0)
    || (Accepted(c, xs, j) && NothingHeldBefore(c, xs, j)
        && xs[j].event.timestampNs - xs[i].event.timestampNs > c.timeoutMs * 1_000_000)
  }

  /** The shift press at `i` is in effect at the end of the history. */
  ghost predicate InEffect(c: Settings, xs: seq<Input>, i: nat) {
    i < |xs| && ShiftEvent(c, xs, i, 1) && forall j :: i < j < |xs| ==> !Ends(c, xs, i, j)
  }

  lemma {:induction false} RunClock(c: Settings, xs: seq<Input>)
    ensures Run(c, xs).0.lastNs == Clock(c, xs)
  {
    if xs != [] {
      RunClock(c, xs[..|xs| - 1]);
    }
  }

  /** Extending the history by one input. */
  lemma InEffectStep(c: Settings, before: seq<Input>, x: Input)
    ensures forall i :: 0 <= i < |before| ==>
              (InEffect(c, before + [x], i) <==>
                 InEffect(c, before, i) && !Ends(c, before + [x], i, |before|))
    ensures InEffect(c, before + [x], |before|) <==> ShiftEvent(c, before + [x], |before|, 1)
  {
    var xs := before + [x];
    forall j: nat | j < |before|
      ensures xs[j] == before[j] && xs[..j] == before[..j]
    {
    }
    forall i: nat, j: nat | i < j < |before| && before[i].Key?
      ensures Ends(c, xs, i, j) <==> Ends(c, before, i, j)
    {
      assert xs[j] == before[j] && xs[i] == before[i] && xs[..j] == before[..j];
    }
    assert xs[|before|] == x;
  }

  ghost predicate ShiftAgrees(c: Settings, xs: seq<Input>, s: State) {
    && (s.shift <==> exists i: nat :: InEffect(c, xs, i))
    && (forall i: nat :: InEffect(c, xs, i) ==> xs[i].event.timestampNs == s.shiftNs)
  }

  /** The decoder's shift flag is on exactly when some shift press of the history is in effect, and
      its timestamp is then that press's. */
  lemma {:induction false} ShiftMatchesHistory(c: Settings, xs: seq<Input>)
    requires Consistent(c.book)
    ensures ShiftAgrees(c, xs, Run(c, xs).0)
  {
    if xs != [] {
      var before, x := xs[..|xs| - 1], xs[|xs| - 1];
      assert xs == before + [x];
      ShiftMatchesHistory(c, before);
      ShiftStep(c, before, x);
    }
  }

  /** What one input does to the flag. */
  lemma StepShift(c: Settings, s: State, x: Input)
    ensures x.ResetAt? ==> !Step(c, s, x).0.shift
    ensures x.Key? ==>
              var s1 := Step(c, s, x).0;
              var e := x.event;
              if e.sourceId != c.sourceId || e.timestampNs < s.lastNs then s1.shift == s.shift && s1.shiftNs == s.shiftNs
              else if e.code == SHIFT && e.value == 1 then s1.shift && s1.shiftNs == e.timestampNs
              else if e.code == SHIFT && e.value == 0 then !s1.shift
              else s1.shiftNs == s.shiftNs &&
                   (s1.shift <==> s.shift && !(s.held == [] && e.timestampNs - s.shiftNs > c.timeoutMs * 1_000_000))
  {
  }

  lemma ShiftStep(c: Settings, before: seq<Input>, x: Input)
    requires Consistent(c.book) && ShiftAgrees(c, before, Run(c, before).0)
    ensures ShiftAgrees(c, before + [x], Run(c, before + [x]).0)
  {
    var xs, n := before + [x], |before|;
    var s, s1 := Run(c, before).0, Run(c, xs).0;
    assert xs[..n] == before && xs[n] == x;
    assert s1 == Step(c, s, x).0;
    InEffectStep(c, before, x);
    RunClock(c, before);
    RunInv(c, before);
    NothingHeld(c, before, s.held, xs);
    ShiftNow(c, xs, n, s);
    forall i: nat | i < n && InEffect(c, before, i)
      ensures !Ends(c, xs, i, n) <==> s1.shift && !ShiftEvent(c, xs, n, 1)
      ensures !Ends(c, xs, i, n) ==> xs[i].event.timestampNs == s1.shiftNs
    {
      assert xs[i] == before[i];
      EndsNow(c, xs, i, n, s);
    }
    ShiftAgreesNow(c, before, xs, s, s1);
  }

  /** The agreement after an input, from what it did to each press in effect. */
  lemma ShiftAgreesNow(c: Settings, before: seq<Input>, xs: seq<Input>, s: State, s1: State)
    requires |xs| == |before| + 1 && ShiftAgrees(c, before, s)
    requires forall i: nat :: InEffect(c, before, i) ==> xs[i].Key?
    requires forall i: nat :: i < |before| ==> (InEffect(c, xs, i) <==> InEffect(c, before, i) && !Ends(c, xs, i, |before|))
    requires InEffect(c, xs, |before|) <==> ShiftEvent(c, xs, |before|, 1)
    requires forall i: nat :: InEffect(c, before, i) ==>
               && (!Ends(c, xs, i, |before|) <==> s1.shift && !ShiftEvent(c, xs, |before|, 1))
               && (!Ends(c, xs, i, |before|) ==> xs[i].event.timestampNs == s1.shiftNs)
    requires ShiftEvent(c, xs, |before|, 1) ==> s1.shift && s1.shiftNs == xs[|before|].event.timestampNs
    requires s1.shift && !ShiftEvent(c, xs, |before|, 1) ==> s.shift
    ensures ShiftAgrees(c, xs, s1)
  {
    if s1.shift && !ShiftEvent(c, xs, |before|, 1) {
      var i: nat :| InEffect(c, before, i);
      assert InEffect(c, xs, i);
    }
  }

  /** What the next input does to the press in effect, in a state that agrees with it. */
  lemma EndsNow(c: Settings, xs: seq<Input>, i: nat, n: nat, s: State)
    requires i < n < |xs| && xs[i].Key? && s.shift && s.shiftNs == xs[i].event.timestampNs
    requires s.lastNs == Clock(c, xs[..n]) && (NothingHeldBefore(c, xs, n) <==> s.held == [])
    ensures !Ends(c, xs, i, n) <==> Step(c, s, xs[n]).0.shift && !ShiftEvent(c, xs, n, 1)
    ensures !Ends(c, xs, i, n) ==> Step(c, s, xs[n]).0.shiftNs == s.shiftNs
  {
    StepShift(c, s, xs[n]);
  }

  lemma ShiftNow(c: Settings, xs: seq<Input>, n: nat, s: State)
    requires n < |xs| && s.lastNs == Clock(c, xs[..n])
    ensures var s1 := Step(c, s, xs[n]).0;
            && (ShiftEvent(c, xs, n, 1) ==> s1.shift && s1.shiftNs == xs[n].event.timestampNs)
            && (s1.shift && !ShiftEvent(c, xs, n, 1) ==> s.shift)
  {
    StepShift(c, s, xs[n]);
  }

  lemma NothingHeld(c: Settings, before: seq<Input>, held: seq<Held>, xs: seq<Input>)
    requires Inv(c, held, Run(c, before).1)
    requires |before| < |xs| && xs[..|before|] == before
    ensures NothingHeldBefore(c, xs, |before|) <==> held == []
  {
    var t := Run(c, before).1;
    if held != [] {
      assert Holds(held, held[0].control);
    }
  }

  /** Shift attribution: a press decoded by the last input carries the shift modifier exactly when
      a shift press of the history, that input included, is in effect. */
  lemma ShiftAttribution(c: Settings, xs: seq<Input>)
    requires Consistent(c.book) && xs != []
    ensures var before := Run(c, xs[..|xs| - 1]).1;
            var t := Run(c, xs).1;
            |before| < |t| && t[|t| - 1].phase == Down ==>
              t[|t| - 1].code.modifiers == (if exists i: nat :: InEffect(c, xs, i) then [SHIFT] else [])
  {
    ShiftMatchesHistory(c, xs);
    var (s, before) := Run(c, xs[..|xs| - 1]);
    var (s1, t) := Run(c, xs);
    if |before| < |t| && t[|t| - 1].phase == Down {
      if xs[|xs| - 1].ResetAt? {
        ReleasesAreUps(c, s.held, xs[|xs| - 1].ns);
        assert false;
      }
    }
  }

  lemma {:induction false} ReleasesAreUps(c: Settings, held: seq<Held>, ns: nat)
    ensures forall i :: 0 <= i < |held| ==>
              Releases(c, held, ns)[i].phase == Up && Releases(c, held, ns)[i].timestampNs == ns
              && Releases(c, held, ns)[i].synthetic
  {
    if held != [] { ReleasesAreUps(c, held[1..], ns); }
  }
}
