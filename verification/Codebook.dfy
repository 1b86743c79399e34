/** Transport codes and the codebook (`transport/codebook.py`): which physical control each
    function key stands for, with and without the shift modifier. */
module Codebook {
  import opened Wrappers
  import opened Text

  const SHIFT := "KEY_LEFTSHIFT"

  datatype ControlKind = Button | EncoderCounterclockwise | EncoderPress | EncoderClockwise

  datatype PhysicalControl = PhysicalControl(controlId: string, vendorName: string, kind: ControlKind, index: nat)

  datatype TransportCode = TransportCode(primaryKey: string, modifiers: seq<string>)

  /** `string_repr` */
  function Repr(code: TransportCode): string {
    if code.modifiers != [] then Join(code.modifiers, "+") + "+" + code.primaryKey else code.primaryKey
  }

  predicate IsFunctionKey(code: string) { "KEY_F" <= code }

  type Mapping = (TransportCode, PhysicalControl)

  /** The lookup tables. */
  datatype Book = Book(
    idToControl: map<string, PhysicalControl>,
    vendorToControl: map<string, PhysicalControl>,
    codeToControl: map<string, PhysicalControl>,
    idToCode: map<string, TransportCode>)

  function Lookup(book: Book, primaryKey: string, modifiers: seq<string>): Option<PhysicalControl> {
    var r := Repr(TransportCode(primaryKey, modifiers));
    if r in book.codeToControl then Some(book.codeToControl[r]) else None
  }

  function CodeOf(book: Book, control: PhysicalControl): Option<TransportCode> {
    if control.controlId in book.idToCode then Some(book.idToCode[control.controlId]) else None
  }

  // ---- Building the tables ----

  function FunctionKey(n: nat): string { "KEY_F" + Decimal(n) }

  const EXPECTED_KEYS: set<string> := set n | 13 <= n < 25 :: FunctionKey(n)

  /** Entries that do not clash: distinct identifiers, vendor names and codes, all function keys. */
  predicate Clean(ms: seq<Mapping>) {
    && (forall i :: 0 <= i < |ms| ==> IsFunctionKey(ms[i].0.primaryKey))
    && (forall i, j :: 0 <= i < j < |ms| ==>
          && ms[i].1.controlId != ms[j].1.controlId
          && ms[i].1.vendorName != ms[j].1.vendorName
          && Repr(ms[i].0) != Repr(ms[j].0))
  }

  function KeysUsed(ms: seq<Mapping>): set<string> {
    set i | 0 <= i < |ms| :: ms[i].0.primaryKey
  }

  predicate Acceptable(ms: seq<Mapping>) {
    |ms| == 24 && Clean(ms) && KeysUsed(ms) == EXPECTED_KEYS
  }

  /** The tables hold one entry. */
  ghost predicate Holds(book: Book, m: Mapping) {
    && m.1.controlId in book.idToControl && book.idToControl[m.1.controlId] == m.1
    && m.1.vendorName in book.vendorToControl && book.vendorToControl[m.1.vendorName] == m.1
    && Repr(m.0) in book.codeToControl && book.codeToControl[Repr(m.0)] == m.1
    && m.1.controlId in book.idToCode && book.idToCode[m.1.controlId] == m.0
  }

  ghost predicate KeysTabulated(book: Book, ms: seq<Mapping>) {
    && book.idToControl.Keys == book.idToCode.Keys == (set i | 0 <= i < |ms| :: ms[i].1.controlId)
    && book.vendorToControl.Keys == (set i | 0 <= i < |ms| :: ms[i].1.vendorName)
    && book.codeToControl.Keys == (set i | 0 <= i < |ms| :: Repr(ms[i].0))
  }

  /** The tables hold exactly the entries, under their identifier, vendor name and code. */
  ghost predicate Tabulates(book: Book, ms: seq<Mapping>) {
    KeysTabulated(book, ms) && forall i :: 0 <= i < |ms| ==> Holds(book, ms[i])
  }

  function AddTo(book: Book, m: Mapping): Book {
    Book(book.idToControl[m.1.controlId := m.1],
         book.vendorToControl[m.1.vendorName := m.1],
         book.codeToControl[Repr(m.0) := m.1],
         book.idToCode[m.1.controlId := m.0])
  }

  predicate ClashFree(book: Book, m: Mapping) {
    && m.1.controlId !in book.idToControl && m.1.vendorName !in book.vendorToControl
    && Repr(m.0) !in book.codeToControl && IsFunctionKey(m.0.primaryKey)
  }

  /** The entries before share neither identifier, name nor code with `m`. */
  predicate ClearOf(ms: seq<Mapping>, m: Mapping) {
    && IsFunctionKey(m.0.primaryKey)
    && forall i :: 0 <= i < |ms| ==>
         ms[i].1.controlId != m.1.controlId && ms[i].1.vendorName != m.1.vendorName && Repr(ms[i].0) != Repr(m.0)
  }

  lemma CleanSnoc(ms: seq<Mapping>, m: Mapping)
    requires Clean(ms)
    ensures Clean(ms + [m]) <==> ClearOf(ms, m)
  {
    var ns := ms + [m];
    assert ns[|ms|] == m;
    if Clean(ns) {
      forall i | 0 <= i < |ms|
        ensures ms[i].1.controlId != m.1.controlId && ms[i].1.vendorName != m.1.vendorName && Repr(ms[i].0) != Repr(m.0)
      {
        assert ns[i] == ms[i];
      }
    }
    if ClearOf(ms, m) {
      assert forall i :: 0 <= i < |ms| ==> ns[i] == ms[i];
    }
  }

  /** The tables clash with `m` exactly when an entry does. */
  lemma ClashesTabulated(book: Book, ms: seq<Mapping>, m: Mapping)
    requires Tabulates(book, ms)
    ensures ClashFree(book, m) <==> ClearOf(ms, m)
  {
  }

  lemma TableKeysSnoc(book: Book, ms: seq<Mapping>, m: Mapping)
    requires KeysTabulated(book, ms)
    ensures KeysTabulated(AddTo(book, m), ms + [m])
  {
    var ns := ms + [m];
    assert ns[|ms|] == m && forall i :: 0 <= i < |ms| ==> ns[i] == ms[i];
  }

  lemma AddKeeps(book: Book, m: Mapping, old_: Mapping)
    requires ClashFree(book, m) && book.idToControl.Keys == book.idToCode.Keys && Holds(book, old_)
    ensures Holds(AddTo(book, m), old_) && Holds(AddTo(book, m), m)
  {
  }

  lemma TabulatesSnoc(book: Book, ms: seq<Mapping>, m: Mapping)
    requires Tabulates(book, ms) && ClashFree(book, m)
    ensures Tabulates(AddTo(book, m), ms + [m])
  {
    var ns, book1 := ms + [m], AddTo(book, m);
    TableKeysSnoc(book, ms, m);
    forall i | 0 <= i < |ns| ensures Holds(book1, ns[i]) {
      if i < |ms| {
        assert Holds(book, ms[i]);
        AddKeeps(book, m, ms[i]);
      }
    }
  }

  lemma CleanPrefix(ms: seq<Mapping>, k: nat)
    requires k <= |ms|
    ensures Clean(ms) ==> Clean(ms[..k])
  {
  }

  /** `Codebook.__init__`: reject at the first clash, otherwise fill the tables. */
  method Build(ms: seq<Mapping>) returns (r: Option<Book>)
    ensures r.Some? <==> Acceptable(ms)
    ensures r.Some? ==> Tabulates(r.value, ms)
  {
    if |ms| != 24 { return None; }
    var book, clean := FillTables(ms);
    if clean && KeysUsed(ms) == EXPECTED_KEYS {
      r := Some(book);
    } else {
      r := None;
    }
  }

  /** The loop of `Codebook.__init__`. */
  method FillTables(ms: seq<Mapping>) returns (book: Book, clean: bool)
    ensures clean <==> Clean(ms)
    ensures clean ==> Tabulates(book, ms)
  {
    book := Book(map[], map[], map[], map[]);
    for k := 0 to |ms|
      invariant Clean(ms[..k]) && Tabulates(book, ms[..k])
    {
      assert ms[..k + 1] == ms[..k] + [ms[k]];
      CleanSnoc(ms[..k], ms[k]);
      ClashesTabulated(book, ms[..k], ms[k]);
      if !ClashFree(book, ms[k]) {
        CleanPrefix(ms, k + 1);
        return book, false;
      }
      TabulatesSnoc(book, ms[..k], ms[k]);
      book := AddTo(book, ms[k]);
    }
    assert ms[..|ms|] == ms;
    clean := true;
  }

  // ---- What every book guarantees ----

  /** Each code leads to a control whose recorded code has the same representation. */
  predicate Consistent(book: Book) {
    forall r :: r in book.codeToControl ==>
      var id := book.codeToControl[r].controlId;
      id in book.idToCode && Repr(book.idToCode[id]) == r
  }

  lemma BuiltIsConsistent(book: Book, ms: seq<Mapping>)
    requires Tabulates(book, ms)
    ensures Consistent(book)
  {
    forall r | r in book.codeToControl
      ensures book.codeToControl[r].controlId in book.idToCode
      ensures Repr(book.idToCode[book.codeToControl[r].controlId]) == r
    {
      var i :| 0 <= i < |ms| && r == Repr(ms[i].0);
    }
  }

  /** Distinct codes never share a control. */
  lemma LookupInjective(book: Book, key: string, mods: seq<string>, key2: string, mods2: seq<string>)
    requires Consistent(book)
    requires Lookup(book, key, mods).Some? && Lookup(book, key, mods) == Lookup(book, key2, mods2)
    ensures Repr(TransportCode(key, mods)) == Repr(TransportCode(key2, mods2))
  {
  }

  /** Every recorded code is a plain function key or a shifted one. */
  predicate ShiftOnly(book: Book) {
    forall id :: id in book.idToCode ==>
      IsFunctionKey(book.idToCode[id].primaryKey) && book.idToCode[id].modifiers in [[], [SHIFT]]
  }

  lemma ReprInjective(a: TransportCode, b: TransportCode)
    requires IsFunctionKey(a.primaryKey) && a.modifiers in [[], [SHIFT]]
    requires IsFunctionKey(b.primaryKey) && b.modifiers in [[], [SHIFT]]
    requires Repr(a) == Repr(b)
    ensures a == b
  {
    var prefix := SHIFT + "+";
    assert Join([SHIFT], "+") == SHIFT;
    assert a.modifiers == [] ==> Repr(a)[4] == 'F';
    assert a.modifiers != [] ==> Repr(a) == prefix + a.primaryKey && Repr(a)[4] == 'L';
    assert b.modifiers == [] ==> Repr(b)[4] == 'F';
    assert b.modifiers != [] ==> Repr(b) == prefix + b.primaryKey && Repr(b)[4] == 'L';
    if a.modifiers != [] {
      assert Repr(a)[|prefix|..] == a.primaryKey;
      assert Repr(b)[|prefix|..] == b.primaryKey;
    }
  }

  /** In such a book a control's recorded code is the very code that was looked up. */
  lemma LookupInverse(book: Book, key: string, shift: bool)
    requires Consistent(book) && ShiftOnly(book) && IsFunctionKey(key)
    ensures var mods := if shift then [SHIFT] else [];
            Lookup(book, key, mods).Some? ==> CodeOf(book, Lookup(book, key, mods).value) == Some(TransportCode(key, mods))
  {
    var mods := if shift then [SHIFT] else [];
    var found := Lookup(book, key, mods);
    if found.Some? {
      ReprInjective(CodeOf(book, found.value).value, TransportCode(key, mods));
    }
  }

  // ---- The default book ----

  function TwoDigits(n: nat): string
    requires n < 100
  {
    [Digit(n / 10), Digit(n % 10)]
  }

  function ButtonMapping(i: nat): Mapping
    requires 1 <= i <= 12
  {
    (TransportCode(FunctionKey(12 + i), []),
     PhysicalControl("button.k" + TwoDigits(i), "A" + Decimal(i), Button, i))
  }

  const TURNS: seq<string> := ["counterclockwise", "press", "clockwise"]

  const KINDS: seq<ControlKind> := [EncoderCounterclockwise, EncoderPress, EncoderClockwise]

  /** Encoder `e` (from 0), movement `t` (left, press, right). */
  function EncoderMapping(e: nat, t: nat): Mapping
    requires e < 4 && t < 3
  {
    (TransportCode(FunctionKey(13 + 3 * e + t), [SHIFT]),
     PhysicalControl("encoder.e" + TwoDigits(e + 1) + "." + TURNS[t], ["ABCD"[e], "LPR"[t]], KINDS[t], e + 1))
  }

  function DefaultMapping(i: nat): Mapping
    requires i < 24
  {
    if i < 12 then ButtonMapping(i + 1) else EncoderMapping((i - 12) / 3, (i - 12) % 3)
  }

  function DefaultMappings(): (ms: seq<Mapping>)
    ensures |ms| == 24
  {
    seq(24, i requires 0 <= i < 24 => DefaultMapping(i))
  }

  /** The list starts with these entries. */
  predicate StartsWith(ms: seq<Mapping>, n: nat, entry: nat -> Mapping) {
    n <= |ms| && forall i :: 0 <= i < n ==> ms[i] == entry(i)
  }

  lemma StartsWithMore(ms: seq<Mapping>, more: seq<Mapping>, entry: nat -> Mapping)
    requires StartsWith(ms, |ms|, entry) && forall i :: 0 <= i < |more| ==> more[i] == entry(|ms| + i)
    ensures StartsWith(ms + more, |ms + more|, entry)
  {
  }

  /** The default entry at a place, for every place. */
  function EntryAt(i: nat): Mapping { if i < 24 then DefaultMapping(i) else DefaultMapping(0) }

  lemma ButtonAt(i: nat)
    requires 1 <= i <= 12
    ensures EntryAt(i - 1) == ButtonMapping(i)
  {
  }

  lemma EncoderAt(e: nat, t: nat)
    requires e < 4 && t < 3
    ensures EntryAt(12 + 3 * e + t) == EncoderMapping(e, t)
  {
    assert (3 * e + t) / 3 == e && (3 * e + t) % 3 == t;
  }

  lemma DefaultsListed(ms: seq<Mapping>, entry: nat -> Mapping)
    requires |ms| == 24 && StartsWith(ms, 24, entry) && forall i: nat :: i < 24 ==> entry(i) == DefaultMappings()[i]
    ensures ms == DefaultMappings()
  {
  }

  /** Where the entries of buttons and encoders belong. */
  ghost predicate Places(entry: nat -> Mapping) {
    && (forall i: nat :: 1 <= i <= 12 ==> entry(i - 1) == ButtonMapping(i))
    && forall e: nat, t: nat :: e < 4 && t < 3 ==> entry(12 + 3 * e + t) == EncoderMapping(e, t)
  }

  lemma DefaultPlaces(entry: nat -> Mapping)
    requires forall i: nat :: entry(i) == EntryAt(i)
    ensures Places(entry)
  {
    forall i: nat | 1 <= i <= 12 ensures entry(i - 1) == ButtonMapping(i) { ButtonAt(i); }
    forall e: nat, t: nat | e < 4 && t < 3 ensures entry(12 + 3 * e + t) == EncoderMapping(e, t) { EncoderAt(e, t); }
  }

  lemma SomePlaces() returns (entry: nat -> Mapping)
    ensures Places(entry) && forall i: nat :: i < 24 ==> entry(i) == DefaultMappings()[i]
  {
    entry := EntryAt;
    DefaultPlaces(entry);
  }

  lemma OneEncoder(ms: seq<Mapping>, e: nat, block: seq<Mapping>, entry: nat -> Mapping)
    requires e < 4 && |ms| == 12 + 3 * e && StartsWith(ms, |ms|, entry) && |block| == 3
    requires entry(12 + 3 * e) == block[0] && entry(13 + 3 * e) == block[1] && entry(14 + 3 * e) == block[2]
    ensures |ms + block| == 15 + 3 * e && StartsWith(ms + block, |ms + block|, entry)
  {
    StartsWithMore(ms, block, entry);
  }

  /** `_build_default_codebook`: buttons first, then three entries per encoder. */
  method BuildDefaultMappings() returns (ms: seq<Mapping>)
    ensures ms == DefaultMappings()
  {
    ghost var entry := SomePlaces();
    ms := [];
    for i := 1 to 13
      invariant |ms| == i - 1 && StartsWith(ms, |ms|, entry)
    {
      StartsWithMore(ms, [ButtonMapping(i)], entry);
      ms := ms + [ButtonMapping(i)];
    }
    for e := 0 to 4
      invariant |ms| == 12 + 3 * e && StartsWith(ms, |ms|, entry)
    {
      assert entry(12 + 3 * e + 0) == EncoderMapping(e, 0);
      OneEncoder(ms, e, [EncoderMapping(e, 0), EncoderMapping(e, 1), EncoderMapping(e, 2)], entry);
      ms := ms + [EncoderMapping(e, 0), EncoderMapping(e, 1), EncoderMapping(e, 2)];
    }
    DefaultsListed(ms, entry);
  }

  lemma DefaultReprs(i: nat)
    requires i < 24
    ensures var m := DefaultMapping(i);
            var key := FunctionKey(13 + if i < 12 then i else i - 12);
            && m.0 == TransportCode(key, if i < 12 then [] else [SHIFT])
            && IsFunctionKey(key)
            && Repr(m.0) == (if i < 12 then key else SHIFT + "+" + key)
  {
    assert Join([SHIFT], "+") == SHIFT;
  }

  lemma FunctionKeyInjective(m: nat, n: nat)
    requires FunctionKey(m) == FunctionKey(n)
    ensures m == n
  {
    assert FunctionKey(m)[5..] == Decimal(m) && FunctionKey(n)[5..] == Decimal(n);
    DecimalDenotes(m);
    DecimalDenotes(n);
  }

  /** The function key of a default entry. */
  function KeyNumber(i: nat): nat { 13 + if i < 12 then i else i - 12 }

  lemma DefaultCode(i: nat)
    requires i < 24
    ensures DefaultMapping(i).0 == TransportCode(FunctionKey(KeyNumber(i)), if i < 12 then [] else [SHIFT])
    ensures IsFunctionKey(FunctionKey(KeyNumber(i)))
  {
    DefaultReprs(i);
  }

  lemma CodesDiffer(k: nat, shifted: bool, n: nat, other: bool)
    requires k != n || shifted != other
    requires IsFunctionKey(FunctionKey(k)) && IsFunctionKey(FunctionKey(n))
    ensures Repr(TransportCode(FunctionKey(k), if shifted then [SHIFT] else []))
         != Repr(TransportCode(FunctionKey(n), if other then [SHIFT] else []))
  {
    var a, b := TransportCode(FunctionKey(k), if shifted then [SHIFT] else []), TransportCode(FunctionKey(n), if other then [SHIFT] else []);
    if Repr(a) == Repr(b) {
      ReprInjective(a, b);
      FunctionKeyInjective(k, n);
    }
  }

  lemma DefaultCodesDiffer(i: nat, j: nat)
    requires i < j < 24
    ensures Repr(DefaultMapping(i).0) != Repr(DefaultMapping(j).0)
  {
    DefaultCode(i);
    DefaultCode(j);
    CodesDiffer(KeyNumber(i), i >= 12, KeyNumber(j), j >= 12);
  }

  predicate NamesDiffer(a: PhysicalControl, b: PhysicalControl) {
    a.controlId != b.controlId && a.vendorName != b.vendorName
  }

  lemma ButtonNamesDiffer(i: nat, j: nat)
    requires 1 <= i < j <= 12
    ensures NamesDiffer(ButtonMapping(i).1, ButtonMapping(j).1)
  {
    var a, b := ButtonMapping(i).1, ButtonMapping(j).1;
    assert a.controlId[8..] == TwoDigits(i) && b.controlId[8..] == TwoDigits(j);
    DecimalDenotes(i);
    DecimalDenotes(j);
    assert a.vendorName[1..] == Decimal(i) && b.vendorName[1..] == Decimal(j);
  }

  lemma ButtonIsNoEncoder(i: nat, e: nat, t: nat)
    requires 1 <= i <= 12 && e < 4 && t < 3
    ensures NamesDiffer(ButtonMapping(i).1, EncoderMapping(e, t).1)
  {
    var a, b := ButtonMapping(i).1, EncoderMapping(e, t).1;
    assert a.controlId[0] == 'b' && b.controlId[0] == 'e';
    assert IsDigit(a.vendorName[1]) && !IsDigit(b.vendorName[1]);
  }

  lemma EncoderNamesDiffer(e: nat, t: nat, f: nat, u: nat)
    requires e < 4 && t < 3 && f < 4 && u < 3 && (e != f || t != u)
    ensures NamesDiffer(EncoderMapping(e, t).1, EncoderMapping(f, u).1)
  {
    EncoderIdParts(e, t);
    EncoderIdParts(f, u);
    var a, b := EncoderMapping(e, t).1, EncoderMapping(f, u).1;
    assert a.vendorName[0] == "ABCD"[e] && b.vendorName[0] == "ABCD"[f];
    assert a.vendorName[1] == "LPR"[t] && b.vendorName[1] == "LPR"[u];
  }

  lemma EncoderIdParts(e: nat, t: nat)
    requires e < 4 && t < 3
    ensures var id := EncoderMapping(e, t).1.controlId;
            |id| > 13 && id[10] == Digit(e + 1) && id[13] == "orl"[t]
  {
    var id := EncoderMapping(e, t).1.controlId;
    var head := "encoder.e" + TwoDigits(e + 1) + ".";
    assert |head| == 12 && id == head + TURNS[t];
    assert head[10] == Digit(e + 1);
    assert id[13] == TURNS[t][1];
    assert TURNS[0][1] == 'o' && TURNS[1][1] == 'r' && TURNS[2][1] == 'l';
  }

  lemma DefaultNamesDiffer(i: nat, j: nat)
    requires i < j < 24
    ensures NamesDiffer(DefaultMapping(i).1, DefaultMapping(j).1)
  {
    if j < 12 {
      ButtonNamesDiffer(i + 1, j + 1);
    } else if i < 12 {
      ButtonIsNoEncoder(i + 1, (j - 12) / 3, (j - 12) % 3);
    } else {
      EncoderNamesDiffer((i - 12) / 3, (i - 12) % 3, (j - 12) / 3, (j - 12) % 3);
    }
  }

  /** The default mappings are accepted, and every code is a plain or a shifted function key. */
  lemma DefaultAcceptable()
    ensures Acceptable(DefaultMappings())
    ensures forall i :: 0 <= i < 24 ==>
              IsFunctionKey(DefaultMappings()[i].0.primaryKey) && DefaultMappings()[i].0.modifiers in [[], [SHIFT]]
  {
    var ms := DefaultMappings();
    forall i | 0 <= i < 24 ensures IsFunctionKey(ms[i].0.primaryKey) && ms[i].0.modifiers in [[], [SHIFT]] {
      DefaultReprs(i);
    }
    forall i, j | 0 <= i < j < 24
      ensures ms[i].1.controlId != ms[j].1.controlId && ms[i].1.vendorName != ms[j].1.vendorName
      ensures Repr(ms[i].0) != Repr(ms[j].0)
    {
      DefaultCodesDiffer(i, j);
      DefaultNamesDiffer(i, j);
    }
    DefaultKeysUsed();
  }

  lemma DefaultKeysUsed()
    ensures KeysUsed(DefaultMappings()) == EXPECTED_KEYS
  {
    var ms := DefaultMappings();
    forall i | 0 <= i < 24 ensures ms[i].0.primaryKey == FunctionKey(13 + if i < 12 then i else i - 12) {
      DefaultReprs(i);
    }
    forall k | k in EXPECTED_KEYS ensures k in KeysUsed(ms) {
      var n :| 13 <= n < 25 && k == FunctionKey(n);
      assert ms[n - 13].0.primaryKey == k;
    }
  }

  // ---- The default book, written out ----

  /** A key, whether it is shifted, and the identifier, the vendor's name, the kind and the number of
      its control. */
  type Row = (string, bool, string, string, ControlKind, nat)

  const BUTTON_ROWS: seq<Row> := [
    ("KEY_F13", false, "button.k01", "A1", Button, 1), ("KEY_F14", false, "button.k02", "A2", Button, 2),
    ("KEY_F15", false, "button.k03", "A3", Button, 3), ("KEY_F16", false, "button.k04", "A4", Button, 4),
    ("KEY_F17", false, "button.k05", "A5", Button, 5), ("KEY_F18", false, "button.k06", "A6", Button, 6),
    ("KEY_F19", false, "button.k07", "A7", Button, 7), ("KEY_F20", false, "button.k08", "A8", Button, 8),
    ("KEY_F21", false, "button.k09", "A9", Button, 9), ("KEY_F22", false, "button.k10", "A10", Button, 10),
    ("KEY_F23", false, "button.k11", "A11", Button, 11), ("KEY_F24", false, "button.k12", "A12", Button, 12)]

  const ENCODER_ROWS: seq<Row> := [
    ("KEY_F13", true, "encoder.e01.counterclockwise", "AL", EncoderCounterclockwise, 1),
    ("KEY_F14", true, "encoder.e01.press", "AP", EncoderPress, 1),
    ("KEY_F15", true, "encoder.e01.clockwise", "AR", EncoderClockwise, 1),
    ("KEY_F16", true, "encoder.e02.counterclockwise", "BL", EncoderCounterclockwise, 2),
    ("KEY_F17", true, "encoder.e02.press", "BP", EncoderPress, 2),
    ("KEY_F18", true, "encoder.e02.clockwise", "BR", EncoderClockwise, 2),
    ("KEY_F19", true, "encoder.e03.counterclockwise", "CL", EncoderCounterclockwise, 3),
    ("KEY_F20", true, "encoder.e03.press", "CP", EncoderPress, 3),
    ("KEY_F21", true, "encoder.e03.clockwise", "CR", EncoderClockwise, 3),
    ("KEY_F22", true, "encoder.e04.counterclockwise", "DL", EncoderCounterclockwise, 4),
    ("KEY_F23", true, "encoder.e04.press", "DP", EncoderPress, 4),
    ("KEY_F24", true, "encoder.e04.clockwise", "DR", EncoderClockwise, 4)]

  function RowMapping(row: Row): Mapping {
    (TransportCode(row.0, if row.1 then [SHIFT] else []), PhysicalControl(row.2, row.3, row.4, row.5))
  }

  lemma KeyTexts()
    ensures FunctionKey(13) == "KEY_F13" && FunctionKey(14) == "KEY_F14" && FunctionKey(15) == "KEY_F15"
    ensures FunctionKey(16) == "KEY_F16" && FunctionKey(17) == "KEY_F17" && FunctionKey(18) == "KEY_F18"
    ensures FunctionKey(19) == "KEY_F19" && FunctionKey(20) == "KEY_F20" && FunctionKey(21) == "KEY_F21"
    ensures FunctionKey(22) == "KEY_F22" && FunctionKey(23) == "KEY_F23" && FunctionKey(24) == "KEY_F24"
  {
  }

  lemma ButtonTexts(i: nat)
    requires 1 <= i <= 12
    ensures "button.k" + TwoDigits(i) == BUTTON_ROWS[i - 1].2 && "A" + Decimal(i) == BUTTON_ROWS[i - 1].3
  {
    var ids, names := "button.k" + TwoDigits(i), "A" + Decimal(i);
    if i < 10 {
      assert TwoDigits(i) == ['0', Digit(i)] && Decimal(i) == [Digit(i)];
    } else {
      assert TwoDigits(i) == ['1', Digit(i - 10)] && Decimal(i) == ['1', Digit(i - 10)] by { assert Decimal(i / 10) == ['1']; }
    }
  }

  lemma ButtonRow(i: nat)
    requires 1 <= i <= 12
    ensures ButtonMapping(i) == RowMapping(BUTTON_ROWS[i - 1])
  {
    KeyTexts();
    ButtonTexts(i);
  }

  lemma EncoderTexts1()
    ensures "encoder.e" + TwoDigits(1) + "." + "counterclockwise" == "encoder.e01.counterclockwise"
    ensures "encoder.e" + TwoDigits(1) + "." + "press" == "encoder.e01.press"
    ensures "encoder.e" + TwoDigits(1) + "." + "clockwise" == "encoder.e01.clockwise"
  {
  }

  lemma EncoderTexts2()
    ensures "encoder.e" + TwoDigits(2) + "." + "counterclockwise" == "encoder.e02.counterclockwise"
    ensures "encoder.e" + TwoDigits(2) + "." + "press" == "encoder.e02.press"
    ensures "encoder.e" + TwoDigits(2) + "." + "clockwise" == "encoder.e02.clockwise"
  {
  }

  lemma EncoderTexts3()
    ensures "encoder.e" + TwoDigits(3) + "." + "counterclockwise" == "encoder.e03.counterclockwise"
    ensures "encoder.e" + TwoDigits(3) + "." + "press" == "encoder.e03.press"
    ensures "encoder.e" + TwoDigits(3) + "." + "clockwise" == "encoder.e03.clockwise"
  {
  }

  lemma EncoderTexts4()
    ensures "encoder.e" + TwoDigits(4) + "." + "counterclockwise" == "encoder.e04.counterclockwise"
    ensures "encoder.e" + TwoDigits(4) + "." + "press" == "encoder.e04.press"
    ensures "encoder.e" + TwoDigits(4) + "." + "clockwise" == "encoder.e04.clockwise"
  {
  }

  lemma EncoderTexts(e: nat, t: nat)
    requires e < 4 && t < 3
    ensures "encoder.e" + TwoDigits(e + 1) + "." + TURNS[t] == ENCODER_ROWS[3 * e + t].2
  {
    if e == 0 { EncoderTexts1(); } else if e == 1 { EncoderTexts2(); } else if e == 2 { EncoderTexts3(); } else { EncoderTexts4(); }
  }

  lemma EncoderRow(e: nat, t: nat)
    requires e < 4 && t < 3
    ensures EncoderMapping(e, t) == RowMapping(ENCODER_ROWS[3 * e + t])
  {
    KeyTexts();
    EncoderTexts(e, t);
  }

  function DefaultRows(): (rows: seq<Row>)
    ensures |rows| == 24
  {
    BUTTON_ROWS + ENCODER_ROWS
  }

  /** The default entries are the rows written out above, in their order. */
  lemma DefaultIsTable(i: nat)
    requires i < 24
    ensures DefaultMappings()[i] == RowMapping(DefaultRows()[i])
  {
    if i < 12 { ButtonRow(i + 1); } else { EncoderRow((i - 12) / 3, (i - 12) % 3); }
  }

  /** So the default book leads each of those keys to its control, and back. */
  lemma DefaultLookups(book: Book, i: nat)
    requires Tabulates(book, DefaultMappings()) && i < 24
    ensures var (code, control) := RowMapping(DefaultRows()[i]);
            Lookup(book, code.primaryKey, code.modifiers) == Some(control) && CodeOf(book, control) == Some(code)
  {
    DefaultIsTable(i);
  }

  /** `DEFAULT_CODEBOOK` */
  method BuildDefault() returns (book: Book)
    ensures Tabulates(book, DefaultMappings()) && Consistent(book) && ShiftOnly(book)
  {
    var ms := BuildDefaultMappings();
    DefaultAcceptable();
    var r := Build(ms);
    book := r.value;
    BuiltIsConsistent(book, ms);
    forall id | id in book.idToCode
      ensures IsFunctionKey(book.idToCode[id].primaryKey) && book.idToCode[id].modifiers in [[], [SHIFT]]
    {
      var i :| 0 <= i < |ms| && id == ms[i].1.controlId;
    }
  }
}
