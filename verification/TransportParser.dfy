/** The key-event decoder (`transport/parser.py`): its step function, the class that performs it,
    and what holds of every trace it emits. */
module TransportParser {
  import opened Wrappers
  import opened Codebook
  import opened ControlModel

  // ---- Events ----

  datatype RawKeyEvent = RawKeyEvent(sourceId: string, timestampNs: nat, code: string, value: int)

  /** `synthetic` events carry the reason "reset". */
  datatype ControlEvent = ControlEvent(
    sourceId: string, timestampNs: nat, control: PhysicalControl, phase: ControlPhase,
    code: TransportCode, synthetic: bool)

  type Trace = seq<ControlEvent>

  // ---- The decoder's state and steps ----

  datatype Settings = Settings(sourceId: string, timeoutMs: nat, book: Book)

  /** A function key held down, with the control it was decoded to. */
  datatype Held = Held(key: string, control: PhysicalControl)

  datatype Counters = Counters(
    errors: nat, repeats: nat, orphans: nat, timeouts: nat, duplicates: nat, regressions: nat)

  datatype State = State(
    shift: bool, shiftNs: nat, held: seq<Held>, lastNs: nat, counters: Counters)

  const INITIAL := State(false, 0, [], 0, Counters(0, 0, 0, 0, 0, 0))

  function FindKey(held: seq<Held>, key: string): (r: Option<nat>)
    ensures r.Some? ==> r.value < |held| && held[r.value].key == key
    ensures r.None? ==> forall h :: h in held ==> h.key != key
  {
    if held == [] then None
    else if held[0].key == key then Some(0)
    else
      var i := FindKey(held[1..], key);
      if i.None? then None else Some(i.value + 1)
  }

  function Without<T>(s: seq<T>, i: nat): seq<T>
    requires i < |s|
  {
    s[..i] + s[i + 1..]
  }

  /** `advance_time`: a shift press expires unless a function key is held. */
  function Advance(c: Settings, s: State, nowNs: nat): State {
    if s.shift && s.held == [] && nowNs - s.shiftNs > c.timeoutMs * 1_000_000 then
      s.(shift := false,
         counters := s.counters.(timeouts := s.counters.timeouts + 1, errors := s.counters.errors + 1))
    else s
  }

  function Modifiers(shift: bool): seq<string> { if shift then [SHIFT] else [] }

  function Press(c: Settings, s: State, e: RawKeyEvent): (State, Trace) {
    var n := s.counters;
    if FindKey(s.held, e.code).Some? then
      (s.(counters := n.(duplicates := n.duplicates + 1, errors := n.errors + 1)), [])
    else
      match Lookup(c.book, e.code, Modifiers(s.shift))
      case None => (s.(counters := n.(errors := n.errors + 1)), [])
      case Some(control) =>
        (s.(held := s.held + [Held(e.code, control)]),
         [ControlEvent(c.sourceId, e.timestampNs, control, Down, TransportCode(e.code, Modifiers(s.shift)), false)])
  }

  /** The code of a release; the fallback is what the source would use for an unknown control. */
  function ReleaseCode(c: Settings, control: PhysicalControl, fallback: string): TransportCode {
    var code := CodeOf(c.book, control);
    if code.Some? then code.value else TransportCode(fallback, [])
  }

  function Release(c: Settings, s: State, e: RawKeyEvent): (State, Trace) {
    var n := s.counters;
    match FindKey(s.held, e.code)
    case None => (s.(counters := n.(orphans := n.orphans + 1, errors := n.errors + 1)), [])
    case Some(i) =>
      var control := s.held[i].control;
      (s.(held := Without(s.held, i)),
       [ControlEvent(c.sourceId, e.timestampNs, control, Up, ReleaseCode(c, control, e.code), false)])
  }

  /** What an accepted event does once time has advanced. */
  function Dispatch(c: Settings, s: State, e: RawKeyEvent): (State, Trace) {
    var n := s.counters;
    if e.value == 2 then (s.(counters := n.(repeats := n.repeats + 1)), [])
    else if e.code == SHIFT then
      (if e.value == 1 then s.(shift := true, shiftNs := e.timestampNs)
       else if e.value == 0 then s.(shift := false)
       else s, [])
    else if IsFunctionKey(e.code) then
      if e.value == 1 then Press(c, s, e)
      else if e.value == 0 then Release(c, s, e)
      else (s, [])
    else (s, [])
  }

  /** `feed` */
  function Feed(c: Settings, s: State, e: RawKeyEvent): (State, Trace) {
    var n := s.counters;
    if e.sourceId != c.sourceId then (s, [])
    else if e.timestampNs < s.lastNs then
      (s.(counters := n.(regressions := n.regressions + 1, errors := n.errors + 1)), [])
    else Dispatch(c, Advance(c, s.(lastNs := e.timestampNs), e.timestampNs), e)
  }

  /** One synthetic release per held key, in the order the keys were pressed. */
  function Releases(c: Settings, held: seq<Held>, ns: nat): (r: Trace)
    ensures |r| == |held|
  {
    if held == [] then []
    else
      [ControlEvent(c.sourceId, ns, held[0].control, Up, ReleaseCode(c, held[0].control, "UNKNOWN"), true)]
      + Releases(c, held[1..], ns)
  }

  /** `reset` */
  function Reset(c: Settings, s: State, ns: nat): (State, Trace) {
    (s.(lastNs := if ns != 0 && ns > s.lastNs then ns else s.lastNs, shift := false, shiftNs := 0, held := []),
     Releases(c, s.held, ns))
  }

  // ---- The class ----

  class TransportParser {
    const settings: Settings
    var shiftActive: bool
    var shiftTimestampNs: nat
    var activeFKeys: seq<Held>
    var lastTimestampNs: nat
    var counters: Counters

    constructor (sourceId: string, timeoutMs: nat, book: Book)
      requires timeoutMs > 0
      ensures settings == Settings(sourceId, timeoutMs, book) && Abstract() == INITIAL
    {
      settings := Settings(sourceId, timeoutMs, book);
      shiftActive := false;
      shiftTimestampNs := 0;
      activeFKeys := [];
      lastTimestampNs := 0;
      counters := Counters(0, 0, 0, 0, 0, 0);
    }

    function Abstract(): State
      reads this
    {
      State(shiftActive, shiftTimestampNs, activeFKeys, lastTimestampNs, counters)
    }

    method AdvanceTime(timestampNs: nat)
      modifies this
      ensures Abstract() == Advance(settings, old(Abstract()), timestampNs)
    {
      if shiftActive && activeFKeys == [] {
        if timestampNs - shiftTimestampNs > settings.timeoutMs * 1_000_000 {
          shiftActive := false;
          counters := counters.(timeouts := counters.timeouts + 1, errors := counters.errors + 1);
        }
      }
    }

    method FeedEvent(e: RawKeyEvent) returns (out: Trace)
      modifies this
      ensures (Abstract(), out) == Feed(settings, old(Abstract()), e)
    {
      if e.sourceId != settings.sourceId { return []; }
      if e.timestampNs < lastTimestampNs {
        counters := counters.(regressions := counters.regressions + 1, errors := counters.errors + 1);
        return [];
      }
      lastTimestampNs := e.timestampNs;
      AdvanceTime(e.timestampNs);
      if e.value == 2 {
        counters := counters.(repeats := counters.repeats + 1);
        return [];
      }
      if e.code == SHIFT {
        if e.value == 1 {
          shiftActive := true;
          shiftTimestampNs := e.timestampNs;
        } else if e.value == 0 {
          shiftActive := false;
        }
        return [];
      }
      if IsFunctionKey(e.code) {
        if e.value == 1 {
          out := PressKey(e);
          return;
        } else if e.value == 0 {
          out := ReleaseKey(e);
          return;
        }
      }
      return [];
    }

    method PressKey(e: RawKeyEvent) returns (out: Trace)
      modifies this
      ensures (Abstract(), out) == Press(settings, old(Abstract()), e)
    {
      if FindKey(activeFKeys, e.code).Some? {
        counters := counters.(duplicates := counters.duplicates + 1, errors := counters.errors + 1);
        return [];
      }
      var modifiers := if shiftActive then [SHIFT] else [];
      var control := Lookup(settings.book, e.code, modifiers);
      if control.Some? {
        activeFKeys := activeFKeys + [Held(e.code, control.value)];
        return [ControlEvent(settings.sourceId, e.timestampNs, control.value, Down,
                             TransportCode(e.code, modifiers), false)];
      }
      counters := counters.(errors := counters.errors + 1);
      return [];
    }

    method ReleaseKey(e: RawKeyEvent) returns (out: Trace)
      modifies this
      ensures (Abstract(), out) == Release(settings, old(Abstract()), e)
    {
      var i := FindKey(activeFKeys, e.code);
      if i.Some? {
        var control := activeFKeys[i.value].control;
        activeFKeys := Without(activeFKeys, i.value);
        return [ControlEvent(settings.sourceId, e.timestampNs, control, Up,
                             ReleaseCode(settings, control, e.code), false)];
      }
      counters := counters.(orphans := counters.orphans + 1, errors := counters.errors + 1);
      return [];
    }

    method ResetState(timestampNs: nat) returns (events: Trace)
      modifies this
      ensures (Abstract(), events) == Reset(settings, old(Abstract()), timestampNs)
    {
      if timestampNs != 0 && timestampNs > lastTimestampNs {
        lastTimestampNs := timestampNs;
      }
      shiftActive := false;
      shiftTimestampNs := 0;
      events := [];
      for i := 0 to |activeFKeys|
        invariant events + Releases(settings, activeFKeys[i..], timestampNs)
               == Releases(settings, activeFKeys, timestampNs)
        invariant Abstract() == old(Abstract()).(
          lastNs := if timestampNs != 0 && timestampNs > old(lastTimestampNs) then timestampNs else old(lastTimestampNs),
          shift := false, shiftNs := 0)
      {
        var control := activeFKeys[i].control;
        var event := ControlEvent(settings.sourceId, timestampNs, control, Up,
                                  ReleaseCode(settings, control, "UNKNOWN"), true);
        assert activeFKeys[i..][1..] == activeFKeys[i + 1..];
        assert events + ([event] + Releases(settings, activeFKeys[i + 1..], timestampNs))
            == events + [event] + Releases(settings, activeFKeys[i + 1..], timestampNs);
        events := events + [event];
      }
      assert activeFKeys[|activeFKeys|..] == [] && events + [] == events;
      activeFKeys := [];
    }
  }
}
