/** The input adapter (`input/evdev_adapter.py`): kernel events in, raw key events with strictly
    increasing timestamps out. */
module EvdevAdapter {
  import opened Wrappers
  import opened Codebook
  import opened TransportParser
  import opened TransportTrace
  import opened ObservationPipeline

  // ---- Timestamps ----

  /** The stamp given to a clock reading after `last`. */
  function Stamp(last: nat, now: int): nat { if now <= last then last + 1 else now }

  /** The stamps of successive clock readings. */
  function Stamps(last: nat, readings: seq<int>): (r: seq<nat>)
    ensures |r| == |readings|
    decreases |readings|
  {
    if readings == [] then []
    else
      var before := Stamps(last, readings[..|readings| - 1]);
      before + [Stamp(if before == [] then last else before[|before| - 1], readings[|readings| - 1])]
  }

  predicate Increasing(s: seq<nat>) {
    forall i, j :: 0 <= i < j < |s| ==> s[i] < s[j]
  }

  /** `n` is the maximum of `k + 1` and of `readings[j] + k - j` over `j <= k`. */
  predicate IsLatestDelayed(n: nat, readings: seq<int>, k: nat)
    requires k < |readings|
  {
    && n >= k + 1
    && (forall j :: 0 <= j <= k ==> n >= readings[j] + k - j)
    && (n == k + 1 || exists j :: 0 <= j <= k && n == readings[j] + k - j)
  }

  /** The closed form of the stamps of a fresh adapter, for any readings, monotone or not: stamp
      number `k + 1` is the maximum of `k + 1` and of each earlier reading plus its distance. They
      strictly increase. */
  lemma {:induction false} StampsClosedForm(readings: seq<int>)
    ensures Increasing(Stamps(0, readings))
    ensures forall k :: 0 <= k < |readings| ==> IsLatestDelayed(Stamps(0, readings)[k], readings, k)
  {
    if readings != [] {
      var n := |readings| - 1;
      var before := readings[..n];
      var earlier, stamps := Stamps(0, before), Stamps(0, readings);
      StampsClosedForm(before);
      forall k | 0 <= k < n ensures IsLatestDelayed(stamps[k], readings, k) {
        assert stamps[k] == earlier[k];
        assert IsLatestDelayed(earlier[k], before, k);
        assert forall j :: 0 <= j <= k ==> before[j] == readings[j];
      }
      if n > 0 {
        StampIsLatest(earlier[n - 1], readings, n);
      }
      assert IsLatestDelayed(stamps[n], readings, n);
    }
  }

  lemma StampIsLatest(last: nat, readings: seq<int>, n: nat)
    requires 0 < n < |readings| && IsLatestDelayed(last, readings[..n], n - 1)
    ensures IsLatestDelayed(Stamp(last, readings[n]), readings, n)
  {
    var before := readings[..n];
    var stamp := Stamp(last, readings[n]);
    forall j | 0 <= j <= n ensures stamp >= readings[j] + n - j {
      if j < n { assert last >= before[j] + (n - 1) - j; }
    }
    if stamp == last + 1 && last != n {
      var j :| 0 <= j <= n - 1 && last == before[j] + (n - 1) - j;
      assert stamp == readings[j] + n - j;
    } else if stamp != last + 1 {
      assert stamp == readings[n] + n - n;
    }
  }

  // ---- Reading ----

  /** What a reader task puts on the queue. A key event carries the key name its code resolves to,
      if any, and the clock reading taken when it is taken off the queue. */
  datatype Item =
    | KeyItem(sourceId: string, name: Option<string>, value: int, now: int)
    | OtherItem
    | ErrorItem
    | DoneItem

  datatype Diagnostics = Diagnostics(
    openedDevices: nat, emittedKeyEvents: nat, ignoredNonKeyEvents: nat, ignoredUnknownCodes: nat,
    closeCount: nat, timestampAdjustments: nat)

  predicate IsEmitted(x: Item) { x.KeyItem? && x.name.Some? && x.name.value != "" }

  function EmittedItems(items: seq<Item>): (r: seq<Item>)
    ensures forall i :: 0 <= i < |r| ==> IsEmitted(r[i])
  {
    if items == [] then []
    else
      var x := items[|items| - 1];
      EmittedItems(items[..|items| - 1]) + if IsEmitted(x) then [x] else []
  }

  function Readings(items: seq<Item>): (r: seq<int>)
    requires forall i :: 0 <= i < |items| ==> IsEmitted(items[i])
    ensures |r| == |items|
  {
    seq(|items|, i requires 0 <= i < |items| && IsEmitted(items[i]) => items[i].now)
  }

  /** The events emitted for the items, in order, stamped in order. */
  ghost predicate Emits(out: seq<RawKeyEvent>, items: seq<Item>, last: nat) {
    var emitted := EmittedItems(items);
    var stamps := Stamps(last, Readings(emitted));
    && |out| == |emitted|
    && forall i :: 0 <= i < |out| ==>
         out[i] == RawKeyEvent(emitted[i].sourceId, stamps[i], emitted[i].name.value, emitted[i].value)
  }

  lemma EmittedSnoc(items: seq<Item>, x: Item)
    ensures EmittedItems(items + [x]) == EmittedItems(items) + if IsEmitted(x) then [x] else []
  {
    assert (items + [x])[..|items|] == items;
  }

  lemma ReadingsSnoc(emitted: seq<Item>, x: Item)
    requires (forall i :: 0 <= i < |emitted| ==> IsEmitted(emitted[i])) && IsEmitted(x)
    ensures Readings(emitted + [x]) == Readings(emitted) + [x.now]
  {
  }

  /** The last of the stamps after `last`. */
  function LastStamp(last: nat, readings: seq<int>): nat {
    var stamps := Stamps(last, readings);
    if stamps == [] then last else stamps[|stamps| - 1]
  }

  /** The stamp of the last event emitted for the items. */
  function LastOf(items: seq<Item>, last: nat): nat { LastStamp(last, Readings(EmittedItems(items))) }

  lemma StampsSnoc(last: nat, readings: seq<int>, now: int)
    ensures Stamps(last, readings + [now]) == Stamps(last, readings) + [Stamp(LastStamp(last, readings), now)]
  {
    assert (readings + [now])[..|readings|] == readings;
  }

  lemma EmitsSnoc(out: seq<RawKeyEvent>, items: seq<Item>, last: nat, x: Item)
    requires Emits(out, items, last)
    ensures !IsEmitted(x) ==> Emits(out, items + [x], last)
    ensures IsEmitted(x) ==>
              Emits(out + [RawKeyEvent(x.sourceId, Stamp(LastOf(items, last), x.now), x.name.value, x.value)],
                    items + [x], last)
  {
    var emitted := EmittedItems(items);
    EmittedSnoc(items, x);
    if IsEmitted(x) {
      ReadingsSnoc(emitted, x);
      StampsSnoc(last, Readings(emitted), x.now);
    } else {
      assert EmittedItems(items + [x]) == emitted;
    }
  }

  datatype Device = Keyboard | Mouse

  /** Which of the devices would open, and whether the mouse is wanted. */
  datatype Opening = Opening(includeMouse: bool, keyboard: bool, mouse: bool)

  function OpenedBy(opening: Opening): nat { if opening.includeMouse then 2 else 1 }

  /** The readers of the open devices, or of those opened when there were none. */
  function ReadersOf(handles: set<Device>, opening: Opening): nat {
    if handles == {} then OpenedBy(opening) else |handles|
  }

  function CountOpened(d: Diagnostics, handles: set<Device>, opening: Opening): Diagnostics {
    if handles == {} then d.(openedDevices := d.openedDevices + OpenedBy(opening)) else d
  }

  datatype StartFailure = AdapterClosed | KeyboardNotOpened | MouseNotOpened

  function StartFailureOf(closed: bool, opening: Opening): Option<StartFailure> {
    if closed then Some(AdapterClosed)
    else if !opening.keyboard then Some(KeyboardNotOpened)
    else if opening.includeMouse && !opening.mouse then Some(MouseNotOpened)
    else None
  }

  /** How reading leaves off: never begun, all readers done, a read failure, cancelled while nothing
      is queued, or still waiting. */
  datatype Stop = NotStarted(failure: StartFailure) | ReadersDone | ReadFailed | Cancelled | Waiting

  predicate StopCloses(stop: Stop) { stop.ReadFailed? || stop.Cancelled? }

  function DoneCount(items: seq<Item>): (n: nat)
    ensures n <= |items|
  {
    if items == [] then 0 else DoneCount(items[..|items| - 1]) + if items[|items| - 1] == DoneItem then 1 else 0
  }

  lemma DoneSnoc(items: seq<Item>, x: Item)
    ensures DoneCount(items + [x]) == DoneCount(items) + if x == DoneItem then 1 else 0
  {
    assert (items + [x])[..|items|] == items;
  }

  lemma PrefixSnoc(items: seq<Item>, n: nat)
    requires n < |items|
    ensures items[..n + 1] == items[..n] + [items[n]]
  {
  }

  predicate IsOther(x: Item) { x.OtherItem? }

  predicate IsUnknown(x: Item) { x.KeyItem? && !IsEmitted(x) }

  function CountItems(items: seq<Item>, p: Item -> bool): nat {
    if items == [] then 0 else CountItems(items[..|items| - 1], p) + if p(items[|items| - 1]) then 1 else 0
  }

  /** How many stamps are not the reading they were taken from. */
  function Adjusted(stamps: seq<nat>, readings: seq<int>): nat
    requires |stamps| == |readings|
  {
    if stamps == [] then 0
    else
      var n := |stamps| - 1;
      Adjusted(stamps[..n], readings[..n]) + if stamps[n] != readings[n] then 1 else 0
  }

  function AdjustedIn(items: seq<Item>, last: nat): nat {
    var readings := Readings(EmittedItems(items));
    Adjusted(Stamps(last, readings), readings)
  }

  /** The counters after reading the items. */
  function Counted(before: Diagnostics, items: seq<Item>, last: nat): Diagnostics {
    Diagnostics(before.openedDevices, before.emittedKeyEvents + |EmittedItems(items)|,
                before.ignoredNonKeyEvents + CountItems(items, IsOther),
                before.ignoredUnknownCodes + CountItems(items, IsUnknown),
                before.closeCount,
                before.timestampAdjustments + AdjustedIn(items, last))
  }

  lemma AdjustedAppend(stamps: seq<nat>, readings: seq<int>, stamp: nat, now: int)
    requires |stamps| == |readings|
    ensures Adjusted(stamps + [stamp], readings + [now])
         == Adjusted(stamps, readings) + if stamp != now then 1 else 0
  {
    assert (stamps + [stamp])[..|stamps|] == stamps && (readings + [now])[..|readings|] == readings;
  }

  lemma AdjustedSnoc(items: seq<Item>, x: Item, last: nat)
    ensures AdjustedIn(items + [x], last)
         == AdjustedIn(items, last) + if IsEmitted(x) && x.now <= LastOf(items, last) then 1 else 0
  {
    var emitted := EmittedItems(items);
    EmittedSnoc(items, x);
    if IsEmitted(x) {
      var readings := Readings(emitted);
      ReadingsSnoc(emitted, x);
      StampsSnoc(last, readings, x.now);
      AdjustedAppend(Stamps(last, readings), readings, Stamp(LastOf(items, last), x.now), x.now);
    } else {
      assert EmittedItems(items + [x]) == emitted;
    }
  }

  lemma LastSnoc(items: seq<Item>, x: Item, last: nat)
    ensures LastOf(items + [x], last) == if IsEmitted(x) then Stamp(LastOf(items, last), x.now) else LastOf(items, last)
  {
    var emitted := EmittedItems(items);
    EmittedSnoc(items, x);
    if IsEmitted(x) {
      ReadingsSnoc(emitted, x);
      StampsSnoc(last, Readings(emitted), x.now);
    } else {
      assert EmittedItems(items + [x]) == emitted;
    }
  }

  lemma CountSnoc(items: seq<Item>, x: Item, p: Item -> bool)
    ensures CountItems(items + [x], p) == CountItems(items, p) + if p(x) then 1 else 0
  {
    assert (items + [x])[..|items|] == items;
  }

  lemma CountedSnoc(before: Diagnostics, items: seq<Item>, x: Item, last: nat)
    ensures var d, d1 := Counted(before, items, last), Counted(before, items + [x], last);
            && d1.openedDevices == d.openedDevices && d1.closeCount == d.closeCount
            && d1.emittedKeyEvents == d.emittedKeyEvents + (if IsEmitted(x) then 1 else 0)
            && d1.ignoredNonKeyEvents == d.ignoredNonKeyEvents + (if IsOther(x) then 1 else 0)
            && d1.ignoredUnknownCodes == d.ignoredUnknownCodes + (if IsUnknown(x) then 1 else 0)
            && d1.timestampAdjustments
                 == d.timestampAdjustments + (if IsEmitted(x) && x.now <= LastOf(items, last) then 1 else 0)
  {
    EmittedSnoc(items, x);
    AdjustedSnoc(items, x, last);
    CountSnoc(items, x, IsOther);
    CountSnoc(items, x, IsUnknown);
  }

  // ---- Which events come out, said of the items ----

  /** A key event whose code has a name; its value does not matter. */
  predicate IsNamedKey(x: Item) { x.KeyItem? && x.name.Some? && x.name.value != "" }

  predicate IsUnnamedKey(x: Item) { x.KeyItem? && (x.name.None? || x.name.value == "") }

  function PositionsOf(items: seq<Item>, p: Item -> bool): (at: set<nat>) {
    set k: nat | k < |items| && p(items[k])
  }

  predicate IsEventOf(e: RawKeyEvent, x: Item) {
    IsNamedKey(x) && e.sourceId == x.sourceId && e.code == x.name.value && e.value == x.value
  }

  /** One event for each named key item, in order, with its source, name and value: event `i` comes
      from item `at[i]`. */
  predicate ComesFrom(out: seq<RawKeyEvent>, items: seq<Item>, at: seq<nat>) {
    && |at| == |out|
    && (forall i, j :: 0 <= i < j < |at| ==> at[i] < at[j])
    && (forall i :: 0 <= i < |at| ==> at[i] < |items| && IsEventOf(out[i], items[at[i]]))
    && (forall k :: 0 <= k < |items| && IsNamedKey(items[k]) ==> k in at)
  }

  function NamedPositions(items: seq<Item>): seq<nat> {
    if items == [] then []
    else
      var n := |items| - 1;
      NamedPositions(items[..n]) + if IsNamedKey(items[n]) then [n] else []
  }

  lemma {:induction false} NamedPositionsAre(items: seq<Item>)
    ensures var at := NamedPositions(items);
            && (forall i, j :: 0 <= i < j < |at| ==> at[i] < at[j])
            && (forall i :: 0 <= i < |at| ==> at[i] < |items| && IsNamedKey(items[at[i]]))
            && (forall k :: 0 <= k < |items| && IsNamedKey(items[k]) ==> k in at)
  {
    if items != [] {
      var n := |items| - 1;
      var before, at := NamedPositions(items[..n]), NamedPositions(items);
      NamedPositionsAre(items[..n]);
      assert forall i :: 0 <= i < |before| ==> before[i] < n && items[..n][before[i]] == items[before[i]];
      forall k | 0 <= k < |items| && IsNamedKey(items[k]) ensures k in at {
        if k < n { assert IsNamedKey(items[..n][k]) && k in before; }
      }
    }
  }

  lemma {:induction false} EmittedAt(items: seq<Item>)
    ensures var at := NamedPositions(items);
            && |EmittedItems(items)| == |at|
            && forall i :: 0 <= i < |at| ==> at[i] < |items| && EmittedItems(items)[i] == items[at[i]]
  {
    if items != [] { EmittedAt(items[..|items| - 1]); }
  }

  lemma EmitsNamedKeys(out: seq<RawKeyEvent>, items: seq<Item>, last: nat)
    requires Emits(out, items, last)
    ensures ComesFrom(out, items, NamedPositions(items))
  {
    NamedPositionsAre(items);
    EmittedAt(items);
  }

  /** The clock readings of the named keys, in order. */
  function NamedReadings(items: seq<Item>): seq<int> {
    if items == [] then []
    else
      var x := items[|items| - 1];
      NamedReadings(items[..|items| - 1]) + if IsNamedKey(x) then [x.now] else []
  }

  lemma {:induction false} ReadingsAreNamed(items: seq<Item>)
    ensures Readings(EmittedItems(items)) == NamedReadings(items)
  {
    if items != [] {
      var before, x := items[..|items| - 1], items[|items| - 1];
      ReadingsAreNamed(before);
      assert items == before + [x];
      EmittedSnoc(before, x);
      if IsEmitted(x) { ReadingsSnoc(EmittedItems(before), x); } else { assert EmittedItems(before) + [] == EmittedItems(before); }
    }
  }

  /** The events carry the successive stamps of those readings. */
  lemma EmitsStamps(out: seq<RawKeyEvent>, items: seq<Item>, last: nat)
    requires Emits(out, items, last)
    ensures |out| == |NamedReadings(items)|
    ensures forall i :: 0 <= i < |out| ==> out[i].timestampNs == Stamps(last, NamedReadings(items))[i]
  {
    ReadingsAreNamed(items);
  }

  lemma {:induction false} CountIsPositions(items: seq<Item>, p: Item -> bool)
    ensures CountItems(items, p) == |PositionsOf(items, p)|
  {
    if items != [] {
      var n := |items| - 1;
      CountIsPositions(items[..n], p);
      var before := PositionsOf(items[..n], p);
      assert PositionsOf(items, p) == if p(items[n]) then before + {n} else before;
    }
  }

  /** The counters of ignored events count the items that are no key events, and the key events whose
      code has no name. */
  lemma CountsIgnored(before: Diagnostics, items: seq<Item>, last: nat)
    ensures var d := Counted(before, items, last);
            && d.ignoredUnknownCodes == before.ignoredUnknownCodes + |PositionsOf(items, IsUnnamedKey)|
            && d.ignoredNonKeyEvents == before.ignoredNonKeyEvents + |PositionsOf(items, IsOther)|
  {
    CountIsPositions(items, IsUnknown);
    CountIsPositions(items, IsOther);
    assert PositionsOf(items, IsUnknown) == PositionsOf(items, IsUnnamedKey);
  }

  /** What was emitted, counted and remembered for the items read. */
  ghost predicate ReadSoFar(
      out: seq<RawKeyEvent>, items: seq<Item>, before: Diagnostics, last: nat, now: Diagnostics, lastNow: nat)
  {
    Emits(out, items, last) && now == Counted(before, items, last) && lastNow == LastOf(items, last)
  }

  lemma ReadSoFarSkip(
      out: seq<RawKeyEvent>, items: seq<Item>, before: Diagnostics, last: nat, now: Diagnostics, lastNow: nat, x: Item)
    requires ReadSoFar(out, items, before, last, now, lastNow) && (x.DoneItem? || x.ErrorItem?)
    ensures ReadSoFar(out, items + [x], before, last, now, lastNow)
  {
    EmitsSnoc(out, items, last, x);
    CountedSnoc(before, items, x, last);
    LastSnoc(items, x, last);
  }

  /** What reading the queue did: the events emitted for the items taken, what was counted and
      remembered, and why it stopped just there. */
  ghost predicate ReadUntil(
      out: seq<RawKeyEvent>, items: seq<Item>, taken: nat, stop: Stop, readers: nat, cancelled: bool,
      before: Diagnostics, last: nat, now: Diagnostics, lastNow: nat)
  {
    && taken <= |items|
    && Emits(out, items[..taken], last)
    && lastNow == LastOf(items[..taken], last)
    && now == CountClose(Counted(before, items[..taken], last), StopCloses(stop))
    && StopsThere(items, taken, stop, readers, cancelled)
  }

  function CountClose(d: Diagnostics, closes: bool): Diagnostics {
    d.(closeCount := d.closeCount + if closes then 1 else 0)
  }

  predicate StopsThere(items: seq<Item>, taken: nat, stop: Stop, readers: nat, cancelled: bool)
    requires taken <= |items|
  {
    && match stop
       case NotStarted(_) => false
       case ReadersDone => DoneCount(items[..taken]) == readers && ErrorItem !in items[..taken]
       case ReadFailed =>
         && taken > 0 && items[taken - 1] == ErrorItem && ErrorItem !in items[..taken - 1]
         && DoneCount(items[..taken]) < readers
       case Cancelled => taken == |items| && DoneCount(items) < readers && ErrorItem !in items && cancelled
       case Waiting => taken == |items| && DoneCount(items) < readers && ErrorItem !in items && !cancelled
  }

  /** Whatever is read: one event for each named key among the items taken, in their order and stamped
      with the successive stamps of their readings; and the keys without a name, and what is no key
      event, are counted. */
  lemma ReadUntilKeys(
      out: seq<RawKeyEvent>, items: seq<Item>, taken: nat, stop: Stop, readers: nat, cancelled: bool,
      before: Diagnostics, last: nat, now: Diagnostics, lastNow: nat)
    requires ReadUntil(out, items, taken, stop, readers, cancelled, before, last, now, lastNow)
    ensures exists at :: ComesFrom(out, items[..taken], at)
    ensures |NamedReadings(items[..taken])| == |out|
    ensures forall i :: 0 <= i < |out| ==> out[i].timestampNs == Stamps(last, NamedReadings(items[..taken]))[i]
    ensures now.emittedKeyEvents == before.emittedKeyEvents + |out|
    ensures now.ignoredUnknownCodes == before.ignoredUnknownCodes + |PositionsOf(items[..taken], IsUnnamedKey)|
    ensures now.ignoredNonKeyEvents == before.ignoredNonKeyEvents + |PositionsOf(items[..taken], IsOther)|
  {
    EmitsNamedKeys(out, items[..taken], last);
    EmitsStamps(out, items[..taken], last);
    CountsIgnored(before, items[..taken], last);
  }

  class EvdevInputAdapter {
    var handles: set<Device>
    var closed: bool
    var lastTimestampNs: nat
    var diagnostics: Diagnostics

    /** A closed adapter holds no device open. */
    ghost predicate Valid() reads this { closed ==> handles == {} }

    constructor ()
      ensures Valid() && !closed && handles == {} && lastTimestampNs == 0
      ensures diagnostics == Diagnostics(0, 0, 0, 0, 0, 0)
    {
      handles := {};
      closed := false;
      lastTimestampNs := 0;
      diagnostics := Diagnostics(0, 0, 0, 0, 0, 0);
    }

    method Close()
      requires Valid()
      modifies this
      ensures Valid() && closed && handles == {} && lastTimestampNs == old(lastTimestampNs)
      ensures diagnostics == CountClose(old(diagnostics), !old(closed))
    {
      if closed { return; }
      closed := true;
      diagnostics := diagnostics.(closeCount := diagnostics.closeCount + 1);
      handles := {};
    }

    /** Open the keyboard, then the mouse. A mouse that does not open closes the adapter for good; a
        keyboard that does not open leaves it as it was. */
    method Start(opening: Opening) returns (failure: Option<StartFailure>)
      requires Valid()
      modifies this
      ensures Valid() && lastTimestampNs == old(lastTimestampNs)
      ensures failure == StartFailureOf(old(closed), opening)
      ensures closed <==> old(closed) || failure == Some(MouseNotOpened)
      ensures handles ==
                match failure
                case None => old(handles) + {Keyboard} + if opening.includeMouse then {Mouse} else {}
                case Some(MouseNotOpened) => {}
                case _ => old(handles)
      ensures old(handles) == {} && failure.None? ==> |handles| == OpenedBy(opening)
      ensures diagnostics ==
                CountClose(
                  old(diagnostics).(openedDevices := old(diagnostics.openedDevices) +
                    if failure == Some(MouseNotOpened) then 1
                    else if failure.Some? then 0 else OpenedBy(opening)),
                  failure == Some(MouseNotOpened))
    {
      if closed { return Some(AdapterClosed); }
      if !opening.keyboard { return Some(KeyboardNotOpened); }
      handles := handles + {Keyboard};
      diagnostics := diagnostics.(openedDevices := diagnostics.openedDevices + 1);
      if opening.includeMouse {
        if !opening.mouse {
          Close();
          return Some(MouseNotOpened);
        }
        handles := handles + {Mouse};
        diagnostics := diagnostics.(openedDevices := diagnostics.openedDevices + 1);
      }
      return None;
    }

    /** Adjust a clock reading so that time moves on, and count the event. */
    method StampReading(now: int) returns (stamp: nat)
      modifies this`lastTimestampNs, this`diagnostics
      ensures stamp == lastTimestampNs == Stamp(old(lastTimestampNs), now)
      ensures diagnostics == old(diagnostics).(
                emittedKeyEvents := old(diagnostics.emittedKeyEvents) + 1,
                timestampAdjustments := old(diagnostics.timestampAdjustments) + if now <= old(lastTimestampNs) then 1 else 0)
    {
      if now <= lastTimestampNs {
        stamp := lastTimestampNs + 1;
        diagnostics := diagnostics.(timestampAdjustments := diagnostics.timestampAdjustments + 1);
      } else {
        stamp := now;
      }
      lastTimestampNs := stamp;
      diagnostics := diagnostics.(emittedKeyEvents := diagnostics.emittedKeyEvents + 1);
    }

    /** One event taken off the queue that is neither an error nor the end of a reader. */
    method TakeEvent(x: Item, out: seq<RawKeyEvent>, ghost before: Diagnostics, ghost items: seq<Item>, ghost last: nat)
      returns (out1: seq<RawKeyEvent>)
      requires (x.OtherItem? || x.KeyItem?) && ReadSoFar(out, items, before, last, diagnostics, lastTimestampNs)
      modifies this`lastTimestampNs, this`diagnostics
      ensures ReadSoFar(out1, items + [x], before, last, diagnostics, lastTimestampNs)
    {
      EmitsSnoc(out, items, last, x);
      CountedSnoc(before, items, x, last);
      LastSnoc(items, x, last);
      if x.OtherItem? {
        diagnostics := diagnostics.(ignoredNonKeyEvents := diagnostics.ignoredNonKeyEvents + 1);
        return out;
      }
      if x.name.None? || x.name.value == "" {
        diagnostics := diagnostics.(ignoredUnknownCodes := diagnostics.ignoredUnknownCodes + 1);
        return out;
      }
      var stamp := StampReading(x.now);
      return out + [RawKeyEvent(x.sourceId, stamp, x.name.value, x.value)];
    }

    /** Take items off the queue until all readers are done, one has failed, or none is left. */
    method TakeItems(items: seq<Item>, readers: nat)
      returns (out: seq<RawKeyEvent>, taken: nat, activeReaders: nat, failed: bool)
      modifies this`lastTimestampNs, this`diagnostics
      ensures taken <= |items|
      ensures ReadSoFar(out, items[..taken], old(diagnostics), old(lastTimestampNs), diagnostics, lastTimestampNs)
      ensures activeReaders == readers - DoneCount(items[..taken])
      ensures failed ==> activeReaders > 0 && taken > 0 && items[taken - 1] == ErrorItem && ErrorItem !in items[..taken - 1]
      ensures !failed ==> ErrorItem !in items[..taken] && (taken == |items| || activeReaders == 0)
    {
      ghost var read := [];
      out, taken, activeReaders, failed := [], 0, readers, false;
      while taken < |items| && activeReaders > 0
        invariant taken <= |items| && items[..taken] == read && ErrorItem !in read
        invariant activeReaders == readers - DoneCount(read)
        invariant ReadSoFar(out, read, old(diagnostics), old(lastTimestampNs), diagnostics, lastTimestampNs)
        decreases |items| - taken
      {
        var x := items[taken];
        DoneSnoc(read, x);
        PrefixSnoc(items, taken);
        taken := taken + 1;
        if x.DoneItem? || x.ErrorItem? {
          ReadSoFarSkip(out, read, old(diagnostics), old(lastTimestampNs), diagnostics, lastTimestampNs, x);
          if x.ErrorItem? { return out, taken, activeReaders, true; }
          activeReaders := activeReaders - 1;
        } else {
          out := TakeEvent(x, out, old(diagnostics), read, old(lastTimestampNs));
        }
        read := read + [x];
      }
    }

    /** The reading loop on the items queued so far; `cancelled` when the task is cancelled once it
        has to wait for more. */
    method ReadQueue(items: seq<Item>, cancelled: bool) returns (out: seq<RawKeyEvent>, taken: nat, stop: Stop)
      requires Valid() && !closed
      modifies this
      ensures Valid()
      ensures ReadUntil(out, items, taken, stop, |old(handles)|, cancelled,
                        old(diagnostics), old(lastTimestampNs), diagnostics, lastTimestampNs)
      ensures closed <==> StopCloses(stop)
      ensures !closed ==> handles == old(handles)
    {
      var activeReaders, failed;
      out, taken, activeReaders, failed := TakeItems(items, |handles|);
      assert taken == |items| ==> items[..taken] == items;
      stop := if failed then ReadFailed
              else if activeReaders == 0 then ReadersDone
              else if cancelled then Stop.Cancelled else Waiting;
      if StopCloses(stop) { Close(); }
    }

    /** `read_events`: open the devices unless some are open already, then read. */
    method ReadEvents(opening: Opening, items: seq<Item>, cancelled: bool)
      returns (out: seq<RawKeyEvent>, taken: nat, stop: Stop)
      requires Valid()
      modifies this
      ensures Valid()
      ensures stop.NotStarted? <==> old(handles) == {} && StartFailureOf(old(closed), opening).Some?
      ensures stop.NotStarted? ==>
                && Some(stop.failure) == StartFailureOf(old(closed), opening)
                && out == [] && taken == 0 && lastTimestampNs == old(lastTimestampNs)
                && (closed <==> old(closed) || stop.failure == MouseNotOpened)
      ensures !stop.NotStarted? ==>
                && (closed <==> StopCloses(stop))
                && ReadUntil(out, items, taken, stop, ReadersOf(old(handles), opening), cancelled,
                             CountOpened(old(diagnostics), old(handles), opening), old(lastTimestampNs),
                             diagnostics, lastTimestampNs)
    {
      if handles == {} {
        var failure := Start(opening);
        if failure.Some? { return [], 0, NotStarted(failure.value); }
      }
      out, taken, stop := ReadQueue(items, cancelled);
    }
  }

  // ---- Adapter into decoder ----

  /** What a fresh adapter emits never regresses in a fresh decoder: no event is rejected for its
      time, whatever the clock did. */
  lemma {:induction false} NoRegressions(c: Settings, raw: seq<RawKeyEvent>, items: seq<Item>)
    requires Emits(raw, items, 0)
    ensures Run(c, Keys(raw)).0.counters.regressions == 0
  {
    var readings := Readings(EmittedItems(items));
    StampsClosedForm(readings);
    forall i, j | 0 <= i < j < |raw| ensures raw[i].timestampNs < raw[j].timestampNs {
      assert Stamps(0, readings)[i] < Stamps(0, readings)[j];
    }
    IncreasingIsAccepted(c, raw);
  }

  lemma {:induction false} IncreasingIsAccepted(c: Settings, raw: seq<RawKeyEvent>)
    requires forall i, j :: 0 <= i < j < |raw| ==> raw[i].timestampNs < raw[j].timestampNs
    ensures var s := Run(c, Keys(raw)).0;
            && s.counters.regressions == 0
            && s.lastNs <= if raw == [] then 0 else raw[|raw| - 1].timestampNs
  {
    if raw != [] {
      var n := |raw| - 1;
      IncreasingIsAccepted(c, raw[..n]);
      KeysSnoc(raw, n);
      assert raw[..n + 1] == raw;
      FeedAccepts(c, Run(c, Keys(raw[..n])).0, raw[n]);
    }
  }

  lemma FeedAccepts(c: Settings, s: State, e: RawKeyEvent)
    requires s.lastNs <= e.timestampNs
    ensures Feed(c, s, e).0.counters.regressions == s.counters.regressions
    ensures Feed(c, s, e).0.lastNs <= e.timestampNs
  {
  }
}
