/** What the decoder's counters count: every event of a run falls into one class, and each counter
    is the number of events of its class. */
module TransportCounters {
  import opened Wrappers
  import opened Codebook
  import opened ControlModel
  import opened TransportParser
  import opened TransportTrace

  datatype Class =
    | Foreign | Regressing | Repeat | Other
    | Pressed | Duplicate | Unknown
    | Released | Orphan
    | Cleared

  predicate IsHeld(s: State, key: string) { exists h :: h in s.held && h.key == key }

  /** The shift modifier is on and has not run out by the time of the event. */
  predicate Shifted(c: Settings, s: State, ns: nat) {
    s.shift && (s.held != [] || ns - s.shiftNs <= c.timeoutMs * 1_000_000)
  }

  /** The class of one input, given the state before it. */
  function ClassOf(c: Settings, s: State, x: Input): Class {
    if x.ResetAt? then Cleared
    else
      var e := x.event;
      if e.sourceId != c.sourceId then Foreign
      else if e.timestampNs < s.lastNs then Regressing
      else if e.value == 2 then Repeat
      else if !IsFunctionKey(e.code) || (e.value != 0 && e.value != 1) then Other
      else if e.value == 0 then (if IsHeld(s, e.code) then Released else Orphan)
      else if IsHeld(s, e.code) then Duplicate
      else if Lookup(c.book, e.code, if Shifted(c, s, e.timestampNs) then [SHIFT] else []).Some? then Pressed
      else Unknown
  }

  /** How many inputs of a run are of a class. */
  function Tally(c: Settings, xs: seq<Input>, k: Class): nat {
    if xs == [] then 0
    else
      var before := xs[..|xs| - 1];
      Tally(c, before, k) + if ClassOf(c, Run(c, before).0, xs[|xs| - 1]) == k then 1 else 0
  }

  /** The shift press runs out as this input arrives. */
  predicate Expires(c: Settings, s: State, x: Input) {
    x.Key? && ClassOf(c, s, x) != Foreign && ClassOf(c, s, x) != Regressing && s.shift && !Shifted(c, s, x.event.timestampNs)
  }

  /** How many shift presses ran out during a run. */
  function Expiries(c: Settings, xs: seq<Input>): nat {
    if xs == [] then 0
    else
      var before := xs[..|xs| - 1];
      Expiries(c, before) + if Expires(c, Run(c, before).0, xs[|xs| - 1]) then 1 else 0
  }

  function Emitted(t: Trace, phase: ControlPhase, synthetic: bool): nat {
    if t == [] then 0
    else
      var e := t[|t| - 1];
      Emitted(t[..|t| - 1], phase, synthetic) + if e.phase == phase && e.synthetic == synthetic then 1 else 0
  }

  lemma FindKeyHeld(s: State, key: string)
    ensures FindKey(s.held, key).Some? <==> IsHeld(s, key)
  {
    if FindKey(s.held, key).Some? { assert s.held[FindKey(s.held, key).value] in s.held; }
  }

  /** The counters after an input of the class. */
  function Bumped(n: Counters, k: Class, expired: bool): Counters {
    Counters(n.errors + One(k == Regressing || k == Duplicate || k == Orphan || k == Unknown) + One(expired),
             n.repeats + One(k == Repeat), n.orphans + One(k == Orphan), n.timeouts + One(expired),
             n.duplicates + One(k == Duplicate), n.regressions + One(k == Regressing))
  }

  lemma ShiftIsNoFunctionKey()
    ensures !IsFunctionKey(SHIFT)
  {
    assert SHIFT[4] == 'L' && "KEY_F"[4] == 'F';
  }

  /** What one fed event adds to the counters and to the trace. */
  lemma FeedCounts(c: Settings, s: State, e: RawKeyEvent)
    ensures var k := ClassOf(c, s, Key(e));
            var (s1, out) := Feed(c, s, e);
            && s1.counters == Bumped(s.counters, k, Expires(c, s, Key(e)))
            && |out| == One(k == Pressed || k == Released)
            && (out != [] ==> !out[0].synthetic && out[0].phase == if k == Pressed then Down else Up)
  {
    ShiftIsNoFunctionKey();
    FindKeyHeld(s, e.code);
    if e.sourceId == c.sourceId && s.lastNs <= e.timestampNs {
      var s0 := Advance(c, s.(lastNs := e.timestampNs), e.timestampNs);
      assert s0.held == s.held && s0.shift == Shifted(c, s, e.timestampNs);
      assert s0.counters == Bumped(s.counters, Foreign, Expires(c, s, Key(e)));
    }
  }

  /** What one fed event emits: a press the control its key and the shift in force lead to, with that
      code; a release the control its key was decoded to, with the control's recorded code. */
  lemma FeedEmits(c: Settings, s: State, e: RawKeyEvent)
    ensures var out, mods := Feed(c, s, e).1, if Shifted(c, s, e.timestampNs) then [SHIFT] else [];
            match ClassOf(c, s, Key(e))
            case Pressed =>
              && Lookup(c.book, e.code, mods).Some?
              && out == [ControlEvent(c.sourceId, e.timestampNs, Lookup(c.book, e.code, mods).value, Down,
                                      TransportCode(e.code, mods), false)]
            case Released =>
              && |out| == 1 && out[0].sourceId == c.sourceId && out[0].timestampNs == e.timestampNs
              && out[0].phase == Up && !out[0].synthetic && Held(e.code, out[0].control) in s.held
              && (CodeOf(c.book, out[0].control).Some? ==> CodeOf(c.book, out[0].control) == Some(out[0].code))
            case _ => out == []
  {
    ShiftIsNoFunctionKey();
    FindKeyHeld(s, e.code);
  }

  lemma {:induction false} EmittedAppend(t: Trace, u: Trace, phase: ControlPhase, synthetic: bool)
    ensures Emitted(t + u, phase, synthetic) == Emitted(t, phase, synthetic) + Emitted(u, phase, synthetic)
  {
    if u == [] {
      assert t + u == t;
    } else {
      EmittedAppend(t, u[..|u| - 1], phase, synthetic);
      assert (t + u)[..|t + u| - 1] == t + u[..|u| - 1];
    }
  }

  lemma EmittedOne(t: Trace, phase: ControlPhase)
    requires |t| <= 1 && forall e :: e in t ==> !e.synthetic
    ensures Emitted(t, phase, false) == if t != [] && t[0].phase == phase then 1 else 0
    ensures Emitted(t, phase, true) == 0
  {
    if t != [] { assert t[..0] == []; }
  }

  lemma {:induction false} EmittedSynthetic(t: Trace, phase: ControlPhase)
    requires forall e :: e in t ==> e.synthetic
    ensures Emitted(t, phase, false) == 0
  {
    if t != [] { EmittedSynthetic(t[..|t| - 1], phase); }
  }

  lemma ResetCounts(c: Settings, s: State, ns: nat, phase: ControlPhase)
    ensures Reset(c, s, ns).0.counters == s.counters
    ensures Emitted(Reset(c, s, ns).1, phase, false) == 0
  {
    ReleasesAreUps(c, s.held, ns);
    EmittedSynthetic(Releases(c, s.held, ns), phase);
  }

  /** The counters and emissions that a history accounts for. */
  ghost predicate Accounts(n: Counters, downs: nat, ups: nat, tally: Class -> nat, expiries: nat) {
    && n.regressions == tally(Regressing) && n.repeats == tally(Repeat)
    && n.duplicates == tally(Duplicate) && n.orphans == tally(Orphan)
    && n.timeouts == expiries
    && n.errors == n.regressions + n.duplicates + n.orphans + n.timeouts + tally(Unknown)
    && downs == tally(Pressed) && ups == tally(Released)
  }

  ghost predicate Balanced(c: Settings, xs: seq<Input>) {
    var (s, t) := Run(c, xs);
    Accounts(s.counters, Emitted(t, Down, false), Emitted(t, Up, false), k => Tally(c, xs, k), Expiries(c, xs))
  }

  lemma AccountsStep(n: Counters, downs: nat, ups: nat, tally: Class -> nat, tally1: Class -> nat, expiries: nat,
                     k: Class, expired: bool)
    requires Accounts(n, downs, ups, tally, expiries)
    requires forall j :: tally1(j) == tally(j) + One(j == k)
    ensures Accounts(Bumped(n, k, expired), downs + One(k == Pressed), ups + One(k == Released), tally1, expiries + One(expired))
  {
  }

  lemma InputCounts(c: Settings, s: State, x: Input)
    ensures var k := ClassOf(c, s, x);
            var (s1, out) := Step(c, s, x);
            && s1.counters == Bumped(s.counters, k, Expires(c, s, x))
            && Emitted(out, Down, false) == One(k == Pressed) && Emitted(out, Up, false) == One(k == Released)
  {
    match x {
      case Key(e) =>
        FeedCounts(c, s, e);
        EmittedOne(Feed(c, s, e).1, Down);
        EmittedOne(Feed(c, s, e).1, Up);
      case ResetAt(ns) =>
        ResetCounts(c, s, ns, Down);
        ResetCounts(c, s, ns, Up);
    }
  }

  lemma Snoc(c: Settings, before: seq<Input>, x: Input)
    ensures var xs, s := before + [x], Run(c, before).0;
            && Run(c, xs) == (Step(c, s, x).0, Run(c, before).1 + Step(c, s, x).1)
            && (forall k :: Tally(c, xs, k) == Tally(c, before, k) + One(k == ClassOf(c, s, x)))
            && Expiries(c, xs) == Expiries(c, before) + One(Expires(c, s, x))
  {
    assert (before + [x])[..|before|] == before;
  }

  lemma BalancedStep(c: Settings, before: seq<Input>, x: Input)
    requires Balanced(c, before)
    ensures Balanced(c, before + [x])
  {
    var (s, t) := Run(c, before);
    var out, k := Step(c, s, x).1, ClassOf(c, s, x);
    Snoc(c, before, x);
    InputCounts(c, s, x);
    EmittedAppend(t, out, Down, false);
    EmittedAppend(t, out, Up, false);
    AccountsStep(s.counters, Emitted(t, Down, false), Emitted(t, Up, false), j => Tally(c, before, j),
                 j => Tally(c, before + [x], j), Expiries(c, before), k, Expires(c, s, x));
  }

  /** Over any run: each counter is the number of inputs of its class, the error counter is their sum
      with the expiries and the unknown keys, and the ordinary presses and releases emitted are
      exactly the inputs that decode. */
  lemma {:induction false} CountersMatchHistory(c: Settings, xs: seq<Input>)
    ensures Balanced(c, xs)
  {
    if xs != [] {
      CountersMatchHistory(c, xs[..|xs| - 1]);
      BalancedStep(c, xs[..|xs| - 1], xs[|xs| - 1]);
      assert xs[..|xs| - 1] + [xs[|xs| - 1]] == xs;
    }
  }
}
