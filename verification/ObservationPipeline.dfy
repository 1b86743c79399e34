/** The observation pipeline (`observation/pipeline.py`): the loop that feeds raw events to the
    decoder and releases what is still held when the stream ends. */
module ObservationPipeline {
  import opened Wrappers
  import opened Codebook
  import opened ControlModel
  import opened TransportParser
  import opened TransportTrace

  // ---- What one observation yields ----

  /** How reading stops: end of file, an input error, or an abort while reading. */
  datatype Ending = Eof | InputError | Cancelled | ConsumerClosed

  /** How far starting gets: a device, a stream and a parser are all needed. */
  datatype Startup = Ready | NoDevice | NoStream | NoParser

  datatype Outcome = Completed | InputFailure | Aborted | StartFailure | StateError | CloseFailure

  /** Whether the synthetic releases are all yielded, or the consumer closes the generator or is
      cancelled at the `k`-th of them. (At an ordinary event that is an abort while reading.) */
  datatype Cut = Whole | CutAt(k: nat, cancelled: bool)

  function Keys(raw: seq<RawKeyEvent>): (xs: seq<Input>)
    ensures |xs| == |raw|
  {
    seq(|raw|, i requires 0 <= i < |raw| => Key(raw[i]))
  }

  lemma KeysSnoc(raw: seq<RawKeyEvent>, n: nat)
    requires n < |raw|
    ensures Keys(raw[..n + 1])[..n] == Keys(raw[..n]) && Keys(raw[..n + 1])[n] == Key(raw[n])
  {
  }

  function Max(a: nat, b: nat): nat { if a >= b then a else b }

  function LatestNs(t: Trace): nat {
    if t == [] then 0 else Max(LatestNs(t[..|t| - 1]), t[|t| - 1].timestampNs)
  }

  /** The time of the synthetic releases. */
  function ResetNs(raw: seq<RawKeyEvent>, t: Trace): nat {
    Max(LatestNs(t) + 1, if raw == [] then 1 else raw[|raw| - 1].timestampNs + 1)
  }

  predicate ReleasesHeld(ending: Ending) { ending == Eof || ending == InputError }

  /** Releasing `held` controls really is cut short. */
  predicate IsCut(ending: Ending, cut: Cut, held: nat) { ReleasesHeld(ending) && cut.CutAt? && 1 <= cut.k <= held }

  function Released(ending: Ending, cut: Cut, held: nat): (n: nat)
    ensures n <= held
  {
    if !ReleasesHeld(ending) then 0 else if IsCut(ending, cut, held) then cut.k else held
  }

  /** Everything yielded: the decoded events, then the synthetic releases unless aborted. */
  function Yielded(c: Settings, raw: seq<RawKeyEvent>, ending: Ending, cut: Cut): Trace {
    var (s, t) := Run(c, Keys(raw));
    t + Releases(c, s.held, ResetNs(raw, t))[..Released(ending, cut, |s.held|)]
  }

  function OutcomeOf(ending: Ending, cut: Cut, held: nat, closeFails: bool): Outcome {
    if IsCut(ending, cut, held) then Aborted
    else
      match ending
      case Eof => if closeFails then CloseFailure else Completed
      case InputError => InputFailure
      case _ => Aborted
  }

  // ---- The class ----

  datatype PipelineState = CREATED | RUNNING | CLOSING | CLOSED

  datatype PipelineCounters = PipelineCounters(
    discoveryAttempts: nat, identitiesSelected: nat, streamsCreated: nat, discoveryErrors: nat,
    rawEventsSeen: nat, transportSourceEvents: nat, ignoredSourceEvents: nat,
    controlEventsEmitted: nat, syntheticReleasesEmitted: nat, normalCompletions: nat, inputErrors: nat,
    cancellationCount: nat, resetOnCancelCount: nat, droppedReleasesOnCancel: nat, closeCalls: nat)

  const ZERO := PipelineCounters(0, 0, 0, 0, 0, 0, 0, 0, 0, 0, 0, 0, 0, 0, 0)

  function FromSource(sourceId: string, raw: seq<RawKeyEvent>): (n: nat)
    ensures n <= |raw|
  {
    if raw == [] then 0
    else FromSource(sourceId, raw[..|raw| - 1]) + if raw[|raw| - 1].sourceId == sourceId then 1 else 0
  }

  /** The counters while reading. */
  function Reading(c: Settings, before: PipelineCounters, raw: seq<RawKeyEvent>): PipelineCounters {
    var n := FromSource(c.sourceId, raw);
    before.(rawEventsSeen := before.rawEventsSeen + |raw|,
            transportSourceEvents := before.transportSourceEvents + n,
            ignoredSourceEvents := before.ignoredSourceEvents + |raw| - n,
            controlEventsEmitted := before.controlEventsEmitted + |Run(c, Keys(raw)).1|)
  }

  function CountOne(n: PipelineCounters, fromSource: bool, emitted: nat): PipelineCounters {
    n.(rawEventsSeen := n.rawEventsSeen + 1,
       transportSourceEvents := n.transportSourceEvents + if fromSource then 1 else 0,
       ignoredSourceEvents := n.ignoredSourceEvents + if fromSource then 0 else 1,
       controlEventsEmitted := n.controlEventsEmitted + emitted)
  }

  lemma ReadingSnoc(c: Settings, before: PipelineCounters, raw: seq<RawKeyEvent>, i: nat)
    requires i < |raw|
    ensures var (s, t) := Run(c, Keys(raw[..i]));
            var (s1, out) := Feed(c, s, raw[i]);
            && Run(c, Keys(raw[..i + 1])) == (s1, t + out)
            && Reading(c, before, raw[..i + 1])
                 == CountOne(Reading(c, before, raw[..i]), raw[i].sourceId == c.sourceId, |out|)
  {
    KeysSnoc(raw, i);
    assert raw[..i + 1][..i] == raw[..i];
  }

  /** The counters once starting got that far. */
  function Begun(n: PipelineCounters, startup: Startup): PipelineCounters {
    n.(discoveryAttempts := n.discoveryAttempts + 1,
       identitiesSelected := n.identitiesSelected + One(startup != NoDevice),
       streamsCreated := n.streamsCreated + One(startup == NoParser || startup == Ready),
       discoveryErrors := n.discoveryErrors + One(startup == NoDevice || startup == NoStream))
  }

  /** What stopping adds to the counters when `held` controls are held. */
  function Stopped(n: PipelineCounters, ending: Ending, cut: Cut, held: nat): PipelineCounters {
    var released, isCut := Released(ending, cut, held), IsCut(ending, cut, held);
    n.(controlEventsEmitted := n.controlEventsEmitted + released,
       syntheticReleasesEmitted := n.syntheticReleasesEmitted + released,
       normalCompletions := n.normalCompletions + One(ending == Eof && !isCut),
       inputErrors := n.inputErrors + One(ending == InputError),
       cancellationCount := n.cancellationCount + One(ending == Cancelled || (ending == Eof && isCut && cut.cancelled)),
       resetOnCancelCount := n.resetOnCancelCount + One(!ReleasesHeld(ending) || (ending == Eof && isCut)),
       droppedReleasesOnCancel := n.droppedReleasesOnCancel + if ReleasesHeld(ending) then 0 else held)
  }

  /** The counters after reading these events and stopping so. */
  function Tallied(c: Settings, n: PipelineCounters, raw: seq<RawKeyEvent>, ending: Ending, cut: Cut): PipelineCounters {
    Stopped(Reading(c, n, raw), ending, cut, |Run(c, Keys(raw)).0.held|)
  }

  class ObservationPipeline {
    const settings: Settings
    var state: PipelineState
    var counters: PipelineCounters

    constructor (sourceId: string, timeoutMs: nat, book: Book)
      requires sourceId != "" && timeoutMs > 0
      ensures settings == Settings(sourceId, timeoutMs, book) && state == CREATED && counters == ZERO
    {
      settings := Settings(sourceId, timeoutMs, book);
      state := CREATED;
      counters := ZERO;
    }

    method Close()
      modifies this
      ensures counters == old(counters).(closeCalls := old(counters.closeCalls) + 1)
      ensures state == match old(state) case CREATED => CLOSED case RUNNING => CLOSING case other => other
    {
      counters := counters.(closeCalls := counters.closeCalls + 1);
      if state == CREATED {
        state := CLOSED;
      } else if state == RUNNING {
        state := CLOSING;
      }
    }

    /** `observe`, on the raw events read before the stream ended or the reader was aborted. */
    method Observe(startup: Startup, raw: seq<RawKeyEvent>, ending: Ending, cut: Cut, closeFails: bool)
        returns (outcome: Outcome, trace: Trace)
      requires settings.timeoutMs > 0
      modifies this
      ensures old(state) != CREATED ==>
                outcome == StateError && trace == [] && state == old(state) && counters == old(counters)
      ensures old(state) == CREATED ==> state == CLOSED
      ensures old(state) == CREATED && startup != Ready ==>
                outcome == StartFailure && trace == [] && counters == Begun(old(counters), startup)
      ensures old(state) == CREATED && startup == Ready ==>
                && trace == Yielded(settings, raw, ending, cut)
                && outcome == OutcomeOf(ending, cut, |Run(settings, Keys(raw)).0.held|, closeFails)
                && counters == Tallied(settings, Begun(old(counters), startup), raw, ending, cut)
    {
      if state != CREATED { return StateError, []; }
      state := RUNNING;
      Begin(startup);
      if startup != Ready {
        state := CLOSED;
        return StartFailure, [];
      }
      outcome, trace := ReadStream(raw, ending, cut, closeFails);
      state := CLOSED;
    }

    /** Discovery and the start of the stream and of the decoder. */
    method Begin(startup: Startup)
      modifies this`counters
      ensures counters == Begun(old(counters), startup)
    {
      counters := counters.(discoveryAttempts := counters.discoveryAttempts + 1);
      counters := Started(counters, startup);
    }

    /** Reading, what happens when it stops, and the close of the stream. */
    method ReadStream(raw: seq<RawKeyEvent>, ending: Ending, cut: Cut, closeFails: bool)
        returns (outcome: Outcome, trace: Trace)
      requires settings.timeoutMs > 0
      modifies this`counters
      ensures trace == Yielded(settings, raw, ending, cut)
      ensures outcome == OutcomeOf(ending, cut, |Run(settings, Keys(raw)).0.held|, closeFails)
      ensures counters == Tallied(settings, old(counters), raw, ending, cut)
    {
      var parser := new TransportParser(settings.sourceId, settings.timeoutMs, settings.book);
      var ns;
      trace, ns := ReadAll(parser, raw);
      var events;
      outcome, events := Stop(parser, ns, ending, cut);
      trace := trace + events;
      if closeFails && outcome == Completed { outcome := CloseFailure; }
    }

    /** Yield the releases one by one, until the consumer aborts. */
    method YieldReleases(events: Trace, ending: Ending, cut: Cut) returns (yielded: Trace, aborted: bool)
      requires ReleasesHeld(ending)
      modifies this`counters
      ensures yielded == events[..Released(ending, cut, |events|)] && aborted == IsCut(ending, cut, |events|)
      ensures counters == old(counters).(
                controlEventsEmitted := old(counters.controlEventsEmitted) + |yielded|,
                syntheticReleasesEmitted := old(counters.syntheticReleasesEmitted) + |yielded|)
    {
      yielded := [];
      for i := 0 to |events|
        invariant yielded == events[..i] && (cut.CutAt? && 1 <= cut.k ==> i < cut.k)
        invariant counters == old(counters).(
                    controlEventsEmitted := old(counters.controlEventsEmitted) + i,
                    syntheticReleasesEmitted := old(counters.syntheticReleasesEmitted) + i)
      {
        counters := counters.(controlEventsEmitted := counters.controlEventsEmitted + 1,
                              syntheticReleasesEmitted := counters.syntheticReleasesEmitted + 1);
        yielded := yielded + [events[i]];
        if cut.CutAt? && cut.k == i + 1 { return yielded, true; }
      }
      assert events[..|events|] == events;
      aborted := false;
    }

    /** An abort: whatever the decoder still holds is dropped. */
    method Abort(parser: TransportParser, cancelled: bool)
      requires parser.settings == settings
      modifies this`counters, parser
      ensures parser.Abstract().held == []
      ensures var n, held := old(counters), |old(parser.Abstract().held)|;
              counters == n.(
                resetOnCancelCount := n.resetOnCancelCount + 1,
                droppedReleasesOnCancel := n.droppedReleasesOnCancel + held,
                cancellationCount := n.cancellationCount + One(cancelled))
    {
      if cancelled {
        counters := counters.(cancellationCount := counters.cancellationCount + 1);
      }
      var dropped := parser.ResetState(0);
      counters := counters.(resetOnCancelCount := counters.resetOnCancelCount + 1,
                            droppedReleasesOnCancel := counters.droppedReleasesOnCancel + |dropped|);
    }

    /** What happens when reading stops: release or drop what is held. */
    method Stop(parser: TransportParser, ns: nat, ending: Ending, cut: Cut) returns (outcome: Outcome, yielded: Trace)
      requires parser.settings == settings
      modifies this`counters, parser
      ensures var held := old(parser.Abstract().held);
              && yielded == Releases(settings, held, ns)[..Released(ending, cut, |held|)]
              && outcome == OutcomeOf(ending, cut, |held|, false)
              && counters == Stopped(old(counters), ending, cut, |held|)
    {
      if !ReleasesHeld(ending) {
        Abort(parser, ending == Cancelled);
        return Aborted, [];
      }
      var events := parser.ResetState(ns);
      if ending == InputError {
        counters := counters.(inputErrors := counters.inputErrors + 1);
      }
      var aborted;
      yielded, aborted := YieldReleases(events, ending, cut);
      if ending == InputError { return if aborted then Aborted else InputFailure, yielded; }
      if aborted {
        Abort(parser, cut.cancelled);
        return Aborted, yielded;
      }
      counters := counters.(normalCompletions := counters.normalCompletions + 1);
      return Completed, yielded;
    }

    /** The reading loop of `observe`. */
    method ReadAll(parser: TransportParser, raw: seq<RawKeyEvent>) returns (trace: Trace, resetNs: nat)
      requires parser.settings == settings && parser.Abstract() == INITIAL
      modifies this`counters, parser
      ensures (parser.Abstract(), trace) == Run(settings, Keys(raw))
      ensures counters == Reading(settings, old(counters), raw)
      ensures resetNs == ResetNs(raw, trace)
    {
      trace := [];
      var lastRawNs, lastParserNs := 0, 0;
      for i := 0 to |raw|
        invariant (parser.Abstract(), trace) == Run(settings, Keys(raw[..i]))
        invariant counters == Reading(settings, old(counters), raw[..i])
        invariant lastParserNs == LatestNs(trace)
        invariant lastRawNs == if i == 0 then 0 else raw[i - 1].timestampNs
      {
        ReadingSnoc(settings, old(counters), raw, i);
        lastRawNs := raw[i].timestampNs;
        var out := ReadOne(parser, raw[i]);
        if out != [] {
          LatestSnoc(trace, out);
          lastParserNs := Max(lastParserNs, out[0].timestampNs);
        } else {
          assert trace + out == trace;
        }
        trace := trace + out;
      }
      assert raw[..|raw|] == raw;
      resetNs := Max(lastParserNs + 1, lastRawNs + 1);
    }

    /** The body of the reading loop: events of another source are only counted. */
    method ReadOne(parser: TransportParser, e: RawKeyEvent) returns (out: Trace)
      requires parser.settings == settings
      modifies this`counters, parser
      ensures (parser.Abstract(), out) == Feed(settings, old(parser.Abstract()), e) && |out| <= 1
      ensures counters == CountOne(old(counters), e.sourceId == settings.sourceId, |out|)
    {
      counters := counters.(rawEventsSeen := counters.rawEventsSeen + 1);
      if e.sourceId != settings.sourceId {
        counters := counters.(ignoredSourceEvents := counters.ignoredSourceEvents + 1);
        return [];
      }
      counters := counters.(transportSourceEvents := counters.transportSourceEvents + 1);
      FeedEmitsAtMostOne(settings, parser.Abstract(), e);
      out := parser.FeedEvent(e);
      counters := counters.(controlEventsEmitted := counters.controlEventsEmitted + |out|);
    }
  }

  lemma LatestSnoc(t: Trace, out: Trace)
    requires |out| == 1
    ensures LatestNs(t + out) == Max(LatestNs(t), out[0].timestampNs)
  {
    assert (t + out)[..|t|] == t;
  }

  function Started(n: PipelineCounters, startup: Startup): PipelineCounters {
    match startup
    case NoDevice => n.(discoveryErrors := n.discoveryErrors + 1)
    case NoStream => n.(identitiesSelected := n.identitiesSelected + 1, discoveryErrors := n.discoveryErrors + 1)
    case _ => n.(identitiesSelected := n.identitiesSelected + 1, streamsCreated := n.streamsCreated + 1)
  }

  lemma FeedEmitsAtMostOne(c: Settings, s: State, e: RawKeyEvent)
    ensures |Feed(c, s, e).1| <= 1
    ensures Feed(c, s, e).1 != [] ==>
              Feed(c, s, e).1[0].timestampNs == e.timestampNs && !Feed(c, s, e).1[0].synthetic
              && Feed(c, s, e).0.lastNs == e.timestampNs
    ensures s.lastNs <= Feed(c, s, e).0.lastNs
  {
  }

  // ---- Main result ----

  ghost predicate InOrder(t: Trace) {
    forall i, j :: 0 <= i < j < |t| ==> t[i].timestampNs <= t[j].timestampNs
  }

  lemma {:induction false} DecodedInOrder(c: Settings, raw: seq<RawKeyEvent>)
    ensures var (s, t) := Run(c, Keys(raw));
            InOrder(t) && forall e :: e in t ==> !e.synthetic && e.timestampNs <= s.lastNs
  {
    if raw != [] {
      var n := |raw| - 1;
      DecodedInOrder(c, raw[..n]);
      KeysSnoc(raw, n);
      assert raw[..n + 1] == raw;
      var (s, t) := Run(c, Keys(raw[..n]));
      FeedEmitsAtMostOne(c, s, raw[n]);
      var out := Feed(c, s, raw[n]).1;
      if out != [] {
        assert t + out == t + [out[0]];
        assert forall i :: 0 <= i < |t| ==> t[i] in t;
      } else {
        assert t + out == t;
      }
    }
  }

  lemma {:induction false} LatestBounds(t: Trace)
    ensures forall e :: e in t ==> e.timestampNs <= LatestNs(t)
  {
    if t != [] {
      LatestBounds(t[..|t| - 1]);
      assert t == t[..|t| - 1] + [t[|t| - 1]];
    }
  }

  /** A run that ends in end of file or an input error, whatever the sources and however the
      timestamps regress: times never decrease, every synthetic release is strictly later than every
      ordinary event, and each control alternates and has equally many presses and releases. */
  lemma CompleteRun(c: Settings, raw: seq<RawKeyEvent>, ending: Ending, control: PhysicalControl)
    requires Consistent(c.book) && ReleasesHeld(ending)
    ensures var full := Yielded(c, raw, ending, Whole);
            && InOrder(full) && Paired(full)
            && (forall e, f :: e in full && f in full && !e.synthetic && f.synthetic ==> e.timestampNs < f.timestampNs)
            && Count(full, control, Down) == Count(full, control, Up)
  {
    var (s, t) := Run(c, Keys(raw));
    var ns := ResetNs(raw, t);
    var out := Releases(c, s.held, ns);
    assert Yielded(c, raw, ending, Whole) == t + out by { assert out[..|out|] == out; }
    ReleasedLater(c, raw);
    ReleasedInOrder(c, raw);
    ReleasedPairs(c, raw, control);
  }

  /** The decoded events, and after them the releases of what is held. */
  function Complete(c: Settings, raw: seq<RawKeyEvent>): Trace {
    var (s, t) := Run(c, Keys(raw));
    t + Releases(c, s.held, ResetNs(raw, t))
  }

  lemma ReleasedLater(c: Settings, raw: seq<RawKeyEvent>)
    ensures var (s, t) := Run(c, Keys(raw));
            var ns := ResetNs(raw, t);
            && (forall e :: e in t ==> !e.synthetic && e.timestampNs < ns)
            && (forall e :: e in Releases(c, s.held, ns) ==> e.synthetic && e.timestampNs == ns)
  {
    var (s, t) := Run(c, Keys(raw));
    DecodedInOrder(c, raw);
    LatestBounds(t);
    ReleasesAreUps(c, s.held, ResetNs(raw, t));
  }

  lemma InOrderThen(t: Trace, out: Trace, ns: nat)
    requires InOrder(t) && (forall e :: e in t ==> e.timestampNs < ns) && forall e :: e in out ==> e.timestampNs == ns
    ensures InOrder(t + out)
  {
    var full := t + out;
    forall i, j | 0 <= i < j < |full| ensures full[i].timestampNs <= full[j].timestampNs {
      if j >= |t| {
        assert full[j] in out;
        assert full[i] in t || full[i] in out;
      }
    }
  }

  lemma ReleasedInOrder(c: Settings, raw: seq<RawKeyEvent>)
    ensures InOrder(Complete(c, raw))
  {
    var (s, t) := Run(c, Keys(raw));
    DecodedInOrder(c, raw);
    ReleasedLater(c, raw);
    InOrderThen(t, Releases(c, s.held, ResetNs(raw, t)), ResetNs(raw, t));
  }

  lemma ReleasedPairs(c: Settings, raw: seq<RawKeyEvent>, control: PhysicalControl)
    requires Consistent(c.book)
    ensures Paired(Complete(c, raw)) && Count(Complete(c, raw), control, Down) == Count(Complete(c, raw), control, Up)
  {
    var (s, t) := Run(c, Keys(raw));
    var ns := ResetNs(raw, t);
    var xs := Keys(raw) + [ResetAt(ns)];
    assert xs[..|raw|] == Keys(raw);
    assert Run(c, xs) == (Reset(c, s, ns).0, Complete(c, raw));
    RunPairs(c, xs);
    assert control !in HeldControls(Run(c, xs).0);
    PairedAlternates(Complete(c, raw), control);
  }

  /** However a run is cut short, what was yielded is the beginning of what the complete run yields:
      cut while releasing, exactly so many releases of it. */
  lemma CutRun(c: Settings, raw: seq<RawKeyEvent>, ending: Ending, cut: Cut)
    ensures var yielded, full := Yielded(c, raw, ending, cut), Yielded(c, raw, Eof, Whole);
            yielded <= full && |yielded| == |Run(c, Keys(raw)).1| + Released(ending, cut, |Run(c, Keys(raw)).0.held|)
  {
    var (s, t) := Run(c, Keys(raw));
    var out := Releases(c, s.held, ResetNs(raw, t));
    assert out[..|out|] == out;
  }

  /** A run aborted while reading drops, and counts, exactly one release per control still held,
      that is per control whose last yielded event is a press. Any other ending counts none as
      dropped, a run cut while releasing included. */
  lemma AbortedRun(c: Settings, n: PipelineCounters, raw: seq<RawKeyEvent>, ending: Ending, cut: Cut)
    requires Consistent(c.book)
    ensures var (s, t) := Run(c, Keys(raw));
            && (forall k :: k in HeldControls(s) <==> Pending(t, k).Some?)
            && Tallied(c, n, raw, ending, cut).droppedReleasesOnCancel
                 == n.droppedReleasesOnCancel + if ReleasesHeld(ending) then 0 else |HeldControls(s)|
  {
    RunPairs(c, Keys(raw));
  }

  /** Every control still held is either released in what is yielded or counted as dropped, exactly
      when the run is not cut before its last release. Cut after `k` releases, the other ones are
      neither. */
  lemma ReleasesAccounted(c: Settings, n: PipelineCounters, raw: seq<RawKeyEvent>, ending: Ending, cut: Cut)
    requires Consistent(c.book)
    ensures var (s, t) := Run(c, Keys(raw));
            var held := |HeldControls(s)|;
            var released := |Yielded(c, raw, ending, cut)| - |t|;
            var dropped := Tallied(c, n, raw, ending, cut).droppedReleasesOnCancel - n.droppedReleasesOnCancel;
            && released + dropped == held - (if IsCut(ending, cut, held) then held - cut.k else 0)
            && (released + dropped == held <==> !(IsCut(ending, cut, held) && cut.k < held))
  {
    RunPairs(c, Keys(raw));
  }

  /** A function key going down while shift is up and the key is not held. */
  lemma KeyDown(c: Settings, s: State, key: string)
    requires IsFunctionKey(key) && Lookup(c.book, key, []).Some?
    requires !s.shift && s.lastNs == 0 && FindKey(s.held, key).None?
    ensures var after := Step(c, s, At0(c, key, 1)).0;
            && !after.shift && after.lastNs == 0
            && after.held == s.held + [Held(key, Lookup(c.book, key, []).value)]
  {
    assert key != SHIFT by { assert key[4] == 'F' && SHIFT[4] == 'L'; }
  }

  lemma TwoDown(c: Settings, key1: string, key2: string)
    requires IsFunctionKey(key1) && IsFunctionKey(key2) && key1 != key2
    requires Lookup(c.book, key1, []).Some? && Lookup(c.book, key2, []).Some?
    ensures var s := Run(c, [At0(c, key1, 1)] + [At0(c, key2, 1)]).0;
            && s.held == [Held(key1, Lookup(c.book, key1, []).value), Held(key2, Lookup(c.book, key2, []).value)]
  {
    RunShift(c, false);
    RunStep(c, [], At0(c, key1, 1));
    assert [] + [At0(c, key1, 1)] == [At0(c, key1, 1)];
    KeyDown(c, INITIAL, key1);
    RunStep(c, [At0(c, key1, 1)], At0(c, key2, 1));
    KeyDown(c, Run(c, [At0(c, key1, 1)]).0, key2);
  }

  /** Two keys pressed, then the end of the file, and the consumer gone at the first release: the
      other control's release is neither yielded nor counted. */
  lemma ReleaseNeitherYieldedNorCounted(c: Settings, n: PipelineCounters, key1: string, key2: string)
    requires Consistent(c.book) && IsFunctionKey(key1) && IsFunctionKey(key2) && key1 != key2
    requires Lookup(c.book, key1, []).Some? && Lookup(c.book, key2, []).Some?
    ensures var raw := [RawKeyEvent(c.sourceId, 0, key1, 1), RawKeyEvent(c.sourceId, 0, key2, 1)];
            var (s, t) := Run(c, Keys(raw));
            && |HeldControls(s)| == 2 && |Yielded(c, raw, Eof, CutAt(1, false))| == |t| + 1
            && Tallied(c, n, raw, Eof, CutAt(1, false)).droppedReleasesOnCancel == n.droppedReleasesOnCancel
  {
    var raw := [RawKeyEvent(c.sourceId, 0, key1, 1), RawKeyEvent(c.sourceId, 0, key2, 1)];
    assert Keys(raw) == [At0(c, key1, 1)] + [At0(c, key2, 1)];
    TwoDown(c, key1, key2);
    RunPairs(c, Keys(raw));
    CutRun(c, raw, Eof, CutAt(1, false));
    AbortedRun(c, n, raw, Eof, CutAt(1, false));
  }

  // ---- The outcome and the counters, said of the events ----

  /** How an observation ends: by the consumer or a cancellation, before or while releasing; by the
      input; or at the end of the file, unless closing the stream fails. */
  lemma OutcomeTable(ending: Ending, cut: Cut, held: nat, closeFails: bool)
    ensures var outcome := OutcomeOf(ending, cut, held, closeFails);
            var cutShort := (ending == Eof || ending == InputError) && cut.CutAt? && 1 <= cut.k && cut.k <= held;
            && (outcome == Aborted <==> ending == Cancelled || ending == ConsumerClosed || cutShort)
            && (outcome == InputFailure <==> ending == InputError && !cutShort)
            && (outcome == CloseFailure <==> ending == Eof && !cutShort && closeFails)
            && (outcome == Completed <==> ending == Eof && !cutShort && !closeFails)
  {
  }

  function Positions(raw: seq<RawKeyEvent>, sourceId: string): set<nat> {
    set i: nat | i < |raw| && raw[i].sourceId == sourceId
  }

  lemma {:induction false} FromSourceCounts(sourceId: string, raw: seq<RawKeyEvent>)
    ensures FromSource(sourceId, raw) == |Positions(raw, sourceId)|
  {
    if raw != [] {
      var n := |raw| - 1;
      FromSourceCounts(sourceId, raw[..n]);
      var before := Positions(raw[..n], sourceId);
      assert Positions(raw, sourceId) == if raw[n].sourceId == sourceId then before + {n} else before;
    }
  }

  /** What each counter of reading and stopping counts: the events read, those of the decoder's source
      and the others; what is yielded, and the synthetic part of it; and how it stopped. */
  lemma CountersTable(c: Settings, n: PipelineCounters, raw: seq<RawKeyEvent>, ending: Ending, cut: Cut)
    ensures var n1 := Tallied(c, n, raw, ending, cut);
            var (s, t) := Run(c, Keys(raw));
            var yielded := Yielded(c, raw, ending, cut);
            var cutShort := (ending == Eof || ending == InputError) && cut.CutAt? && 1 <= cut.k && cut.k <= |s.held|;
            && n1.rawEventsSeen == n.rawEventsSeen + |raw|
            && n1.transportSourceEvents == n.transportSourceEvents + |Positions(raw, c.sourceId)|
            && n1.ignoredSourceEvents == n.ignoredSourceEvents + |raw| - |Positions(raw, c.sourceId)|
            && n1.controlEventsEmitted == n.controlEventsEmitted + |yielded|
            && n1.syntheticReleasesEmitted == n.syntheticReleasesEmitted + |yielded| - |t|
            && n1.normalCompletions == n.normalCompletions + (if ending == Eof && !cutShort then 1 else 0)
            && n1.inputErrors == n.inputErrors + (if ending == InputError then 1 else 0)
            && n1.cancellationCount
                 == n.cancellationCount + (if ending == Cancelled || (ending == Eof && cutShort && cut.cancelled) then 1 else 0)
            && n1.resetOnCancelCount
                 == n.resetOnCancelCount
                    + (if ending == Cancelled || ending == ConsumerClosed || (ending == Eof && cutShort) then 1 else 0)
            && n1.discoveryAttempts == n.discoveryAttempts && n1.discoveryErrors == n.discoveryErrors
            && n1.identitiesSelected == n.identitiesSelected && n1.streamsCreated == n.streamsCreated
            && n1.closeCalls == n.closeCalls
  {
    FromSourceCounts(c.sourceId, raw);
  }

  /** And of starting: an attempt; a device if there was one; a stream if there was one; an error when
      one of those two is missing. */
  lemma StartTable(n: PipelineCounters, startup: Startup)
    ensures var n1 := Begun(n, startup);
            && n1.discoveryAttempts == n.discoveryAttempts + 1
            && n1.identitiesSelected == n.identitiesSelected + (if startup == NoDevice then 0 else 1)
            && n1.streamsCreated == n.streamsCreated + (if startup == NoDevice || startup == NoStream then 0 else 1)
            && n1.discoveryErrors == n.discoveryErrors + (if startup == NoDevice || startup == NoStream then 1 else 0)
            && n1 == n.(discoveryAttempts := n1.discoveryAttempts, identitiesSelected := n1.identitiesSelected,
                        streamsCreated := n1.streamsCreated, discoveryErrors := n1.discoveryErrors)
  {
  }
}
