/** Finding the keypad among the input records (`device/discovery.py`, `device/identity.py`): group
    the matching records by USB parent, pair a keyboard with a mouse in each group, select one. */
module DeviceDiscovery {
  import opened Wrappers
  import opened Text

  datatype UdevInputRecord = UdevInputRecord(
    node: string, syspath: string, parent: string, properties: map<string, string>,
    devlinks: seq<string>, name: string)

  type Records = seq<UdevInputRecord>

  function Property(r: UdevInputRecord, key: string, default: string): string {
    if key in r.properties then r.properties[key] else default
  }

  // ---- Classifying a record ----

  function LowerChar(c: char): char {
    if 'A' <= c <= 'Z' then c - 'A' + 'a' else c
  }

  /** `str.lower`, as far as comparing with an ASCII word can see it. */
  function Lower(s: string): (r: string)
    ensures |r| == |s|
  {
    seq(|s|, i requires 0 <= i < |s| => LowerChar(s[i]))
  }

  /** `str.zfill(2)`, which pads after a sign. */
  function ZFill2(s: string): string {
    if |s| >= 2 then s
    else if s == "" then "00"
    else if s[0] == '+' || s[0] == '-' then s + "0"
    else "0" + s
  }

  datatype Layout = Canonical | Reversed | Foreign

  const MANUFACTURERS := {"YOUYOU TEC.", "YOUYOU_TEC."}
  const PRODUCTS := {"YOUYOU Keyb_V2", "YOUYOU_Keyb_V2"}

  function DescriptorLayout(manufacturer: string, product: string): Layout {
    if manufacturer in MANUFACTURERS && product in PRODUCTS then Canonical
    else if manufacturer in PRODUCTS && product in MANUFACTURERS then Reversed
    else Foreign
  }

  datatype Match = NotUsb | WrongProduct | WrongInterface | Matched

  function MatchOf(r: UdevInputRecord): Match {
    var vid := Lower(Property(r, "YYR4_NORMALIZED_VID", Property(r, "ID_VENDOR_ID", "")));
    var pid := Lower(Property(r, "YYR4_NORMALIZED_PID", Property(r, "ID_MODEL_ID", "")));
    var manufacturer := Property(r, "YYR4_NORMALIZED_MANUFACTURER", Property(r, "ID_VENDOR", ""));
    var product := Property(r, "YYR4_NORMALIZED_PRODUCT", Property(r, "ID_MODEL", ""));
    if "ID_BUS" !in r.properties || r.properties["ID_BUS"] != "usb" then NotUsb
    else if vid != "239a" || pid != "80f4" || DescriptorLayout(manufacturer, product).Foreign? then WrongProduct
    else if ZFill2(Property(r, "ID_USB_INTERFACE_NUM", "")) != "02" then WrongInterface
    else Matched
  }

  datatype Role = Keyboard | Mouse | Both | Neither

  function RoleOf(r: UdevInputRecord): Role {
    var keyboard := "ID_INPUT_KEYBOARD" in r.properties && r.properties["ID_INPUT_KEYBOARD"] == "1";
    var mouse := "ID_INPUT_MOUSE" in r.properties && r.properties["ID_INPUT_MOUSE"] == "1";
    if keyboard && mouse then Both else if keyboard then Keyboard else if mouse then Mouse else Neither
  }

  // ---- Filtering ----

  function Filter<T>(xs: seq<T>, keep: T -> bool): seq<T> {
    if xs == [] then []
    else Filter(xs[..|xs| - 1], keep) + if keep(xs[|xs| - 1]) then [xs[|xs| - 1]] else []
  }

  lemma FilterSnoc<T>(xs: seq<T>, keep: T -> bool, n: nat)
    requires n < |xs|
    ensures Filter(xs[..n + 1], keep) == Filter(xs[..n], keep) + if keep(xs[n]) then [xs[n]] else []
  {
    assert xs[..n + 1][..n] == xs[..n];
  }

  lemma {:induction false} FilterCount<T>(xs: seq<T>, keep: T -> bool, x: T)
    ensures multiset(Filter(xs, keep))[x] == if keep(x) then multiset(xs)[x] else 0
  {
    if xs != [] {
      var init, last := xs[..|xs| - 1], xs[|xs| - 1];
      FilterCount(init, keep, x);
      assert xs == init + [last];
    }
  }

  /** Filtering a rearrangement gives a rearrangement. */
  lemma FilterPermutes<T(!new)>(xs: seq<T>, ys: seq<T>, keep: T -> bool)
    requires multiset(xs) == multiset(ys)
    ensures multiset(Filter(xs, keep)) == multiset(Filter(ys, keep))
  {
    var a, b := multiset(Filter(xs, keep)), multiset(Filter(ys, keep));
    forall x ensures a[x] == b[x] {
      FilterCount(xs, keep, x);
      FilterCount(ys, keep, x);
    }
    assert a == b;
  }

  lemma SameSize<T>(xs: seq<T>, ys: seq<T>)
    requires multiset(xs) == multiset(ys)
    ensures |xs| == |ys|
    ensures |xs| == 1 ==> xs == ys
  {
    assert |multiset(xs)| == |xs| && |multiset(ys)| == |ys|;
    if |xs| == 1 {
      assert xs[0] in multiset(xs);
      assert ys[0] in multiset(ys);
      assert xs == [xs[0]] && ys == [ys[0]];
    }
  }

  // ---- One group ----

  datatype Group = Complete(keyboard: UdevInputRecord, mouse: UdevInputRecord) | Incomplete | AmbiguousGroup

  function OfRole(role: Role): UdevInputRecord -> bool { r => RoleOf(r) == role }

  /** Exactly one keyboard and one mouse, on different nodes, and nothing that is both. */
  function GroupOf(group: Records): Group {
    var keyboards, mice := Filter(group, OfRole(Keyboard)), Filter(group, OfRole(Mouse));
    if Filter(group, OfRole(Both)) != [] || |keyboards| > 1 || |mice| > 1 then AmbiguousGroup
    else if keyboards == [] || mice == [] then Incomplete
    else if keyboards[0].node == mice[0].node then AmbiguousGroup
    else Complete(keyboards[0], mice[0])
  }

  lemma GroupPermutes(g: Records, h: Records)
    requires multiset(g) == multiset(h)
    ensures GroupOf(g) == GroupOf(h)
  {
    FilterPermutes(g, h, OfRole(Both));
    FilterPermutes(g, h, OfRole(Keyboard));
    FilterPermutes(g, h, OfRole(Mouse));
    SameSize(Filter(g, OfRole(Both)), Filter(h, OfRole(Both)));
    SameSize(Filter(g, OfRole(Keyboard)), Filter(h, OfRole(Keyboard)));
    SameSize(Filter(g, OfRole(Mouse)), Filter(h, OfRole(Mouse)));
  }

  // ---- Identities ----

  predicate Contains(s: string, word: string) {
    word <= s || (s != "" && Contains(s[1..], word))
  }

  function FirstLink(links: seq<string>, wanted: string -> bool): Option<string> {
    if links == [] then None else if wanted(links[0]) then Some(links[0]) else FirstLink(links[1..], wanted)
  }

  function ById(suffix: string): string -> bool { link => Contains(link, "by-id") && Contains(link, suffix) }

  function ByPath(suffix: string): string -> bool { link => Contains(link, "by-path") && Contains(link, suffix) }

  function AnyEvent(): string -> bool {
    link => Contains(link, "by-path") && Contains(link, "event") && !Contains(link, "event-kbd") && !Contains(link, "event-mouse")
  }

  /** `select_stable_path`. */
  function StablePath(links: seq<string>, suffix: string): Option<string> {
    var byId, byPath := FirstLink(links, ById(suffix)), FirstLink(links, ByPath(suffix));
    if byId.Some? then byId else if byPath.Some? then byPath else FirstLink(links, AnyEvent())
  }

  datatype InputInterface = InputInterface(
    role: Role, node: string, name: string, syspath: string, parent: string,
    devlinks: seq<string>, stablePath: Option<string>)

  datatype YYR4Identity = YYR4Identity(
    parent: string, keyboard: InputInterface, mouse: InputInterface, serialPresent: bool, hint: string)

  function InterfaceOf(role: Role, r: UdevInputRecord, suffix: string): InputInterface {
    InputInterface(role, r.node, r.name, r.syspath, r.parent, r.devlinks, StablePath(r.devlinks, suffix))
  }

  function IdentityOf(parent: string, keyboard: UdevInputRecord, mouse: UdevInputRecord): YYR4Identity {
    YYR4Identity(parent, InterfaceOf(Keyboard, keyboard, "event-kbd"), InterfaceOf(Mouse, mouse, "event-mouse"),
                 "ID_SERIAL_SHORT" in keyboard.properties, Property(keyboard, "ID_USB_INTERFACE_NUM", ""))
  }

  /** What the identity constructors check that grouping has not already settled. */
  predicate Acceptable(keyboard: UdevInputRecord, mouse: UdevInputRecord) {
    && keyboard.node != "" && keyboard.syspath != "" && keyboard.parent != ""
    && mouse.node != "" && mouse.syspath != "" && mouse.parent != ""
    && keyboard.syspath != mouse.syspath
  }

  // ---- All groups ----

  function Matching(m: Match): UdevInputRecord -> bool { r => MatchOf(r) == m }

  /** The records that reach a group. What follows is about these. */
  function Kept(records: Records): Records { Filter(records, Matching(Matched)) }

  function InGroup(parent: string): UdevInputRecord -> bool { (r: UdevInputRecord) => r.parent == parent }

  function Members(kept: Records, parent: string): Records { Filter(kept, InGroup(parent)) }

  function Parents(kept: Records): set<string> {
    set r | r in kept :: r.parent
  }

  /** The groups: the parents, and what each one's records come to. */
  type Kind = string -> Group

  function KindIn(kept: Records): Kind { p => GroupOf(Members(kept, p)) }

  function Those(all: set<string>, keep: string -> bool): set<string> { set p | p in all && keep(p) }

  function CompleteIn(all: set<string>, kind: Kind): set<string> { Those(all, p => kind(p).Complete?) }

  function IncompleteIn(all: set<string>, kind: Kind): set<string> { Those(all, p => kind(p).Incomplete?) }

  function AmbiguousIn(all: set<string>, kind: Kind): set<string> { Those(all, p => kind(p).AmbiguousGroup?) }

  function IdentityAt(kind: Kind, p: string): YYR4Identity
    requires kind(p).Complete?
  {
    IdentityOf(p, kind(p).keyboard, kind(p).mouse)
  }

  /** The identity constructors accept every complete group. */
  predicate AllAcceptable(all: set<string>, kind: Kind) {
    forall p :: p in all && kind(p).Complete? ==> Acceptable(kind(p).keyboard, kind(p).mouse)
  }

  datatype Selection = Found(identity: YYR4Identity) | Ambiguous | OnlyIncomplete | NotFound | Invalid

  /** `select_single`, as a relation on the groups. */
  ghost predicate SelectsFrom(all: set<string>, kind: Kind, s: Selection) {
    var complete := CompleteIn(all, kind);
    if !AllAcceptable(all, kind) then s == Invalid
    else if |complete| > 1 || AmbiguousIn(all, kind) != {} then s == Ambiguous
    else if complete == {} then s == if IncompleteIn(all, kind) != {} then OnlyIncomplete else NotFound
    else exists p :: p in complete && s == Found(IdentityAt(kind, p))
  }

  ghost predicate Selects(records: Records, s: Selection) {
    SelectsFrom(Parents(Kept(records)), KindIn(Kept(records)), s)
  }

  lemma OneElement(xs: set<string>, p: string, q: string)
    requires |xs| <= 1 && p in xs && q in xs
    ensures p == q
  {
    var rest := xs - {p};
    assert |rest| == |xs| - 1;
    assert q in rest <==> p != q;
  }

  lemma SelectionUnique(all: set<string>, kind: Kind, other: Kind, s: Selection, t: Selection)
    requires forall p :: p in all ==> kind(p) == other(p)
    requires SelectsFrom(all, kind, s) && SelectsFrom(all, other, t)
    ensures s == t
  {
    assert CompleteIn(all, kind) == CompleteIn(all, other);
    assert AmbiguousIn(all, kind) == AmbiguousIn(all, other);
    assert IncompleteIn(all, kind) == IncompleteIn(all, other);
    if s.Found? && t.Found? {
      var p :| p in CompleteIn(all, kind) && s == Found(IdentityAt(kind, p));
      var q :| q in CompleteIn(all, other) && t == Found(IdentityAt(other, q));
      OneElement(CompleteIn(all, kind), p, q);
    }
  }

  lemma ParentsPermute(xs: Records, ys: Records)
    requires multiset(xs) == multiset(ys)
    ensures Parents(xs) == Parents(ys)
  {
    forall r ensures r in xs <==> r in ys {
      assert r in xs <==> r in multiset(xs);
      assert r in ys <==> r in multiset(ys);
    }
  }

  /** The enumeration order does not matter: the same identity, or the same failure. */
  lemma OrderDoesNotMatter(xs: Records, ys: Records, s: Selection, t: Selection)
    requires multiset(xs) == multiset(ys) && Selects(xs, s) && Selects(ys, t)
    ensures s == t
  {
    FilterPermutes(xs, ys, Matching(Matched));
    ParentsPermute(Kept(xs), Kept(ys));
    forall p ensures KindIn(Kept(xs))(p) == KindIn(Kept(ys))(p) {
      FilterPermutes(Kept(xs), Kept(ys), InGroup(p));
      GroupPermutes(Members(Kept(xs), p), Members(Kept(ys), p));
    }
    SelectionUnique(Parents(Kept(xs)), KindIn(Kept(xs)), KindIn(Kept(ys)), s, t);
  }

  lemma FoundFromOne(all: set<string>, kind: Kind, s: Selection)
    requires AllAcceptable(all, kind) && SelectsFrom(all, kind, s)
    ensures s.Found? <==> |CompleteIn(all, kind)| == 1 && AmbiguousIn(all, kind) == {}
  {
    var complete := CompleteIn(all, kind);
    if complete != {} {
      var p :| p in complete;
      assert |complete| == |complete - {p}| + 1;
    }
  }

  /** When the constructors accept every complete group, a device is found exactly when one group is
      complete and none is ambiguous; incomplete groups beside it do not matter. */
  lemma FoundExactlyWhen(records: Records, s: Selection)
    requires AllAcceptable(Parents(Kept(records)), KindIn(Kept(records))) && Selects(records, s)
    ensures var all, kind := Parents(Kept(records)), KindIn(Kept(records));
            s.Found? <==> |CompleteIn(all, kind)| == 1 && AmbiguousIn(all, kind) == {}
  {
    FoundFromOne(Parents(Kept(records)), KindIn(Kept(records)), s);
  }

  lemma {:induction false} InFilter<T>(xs: seq<T>, keep: T -> bool, x: T)
    ensures x in Filter(xs, keep) <==> x in xs && keep(x)
  {
    if xs != [] {
      InFilter(xs[..|xs| - 1], keep, x);
      assert xs == xs[..|xs| - 1] + [xs[|xs| - 1]];
    }
  }

  /** The only one of the kept records of the group `p` with the role, and what the identity says of it. */
  ghost predicate SoleOfRole(records: Records, p: string, role: Role, interface: InputInterface) {
    && interface.role == role
    && exists r :: && Filter(Members(Kept(records), p), OfRole(role)) == [r]
                   && r in records && MatchOf(r) == Matched && r.parent == p && RoleOf(r) == role
                   && interface.node == r.node && interface.syspath == r.syspath && interface.parent == p
                   && interface.name == r.name && interface.devlinks == r.devlinks
  }

  lemma SoleRecord(records: Records, p: string, role: Role, r: UdevInputRecord)
    requires Filter(Members(Kept(records), p), OfRole(role)) == [r]
    ensures r in records && MatchOf(r) == Matched && r.parent == p && RoleOf(r) == role
  {
    assert r in Filter(Members(Kept(records), p), OfRole(role));
    InFilter(Members(Kept(records), p), OfRole(role), r);
    InFilter(Kept(records), InGroup(p), r);
    InFilter(records, Matching(Matched), r);
  }

  lemma SoleInterface(records: Records, p: string, role: Role, r: UdevInputRecord, suffix: string)
    requires Filter(Members(Kept(records), p), OfRole(role)) == [r]
    ensures SoleOfRole(records, p, role, InterfaceOf(role, r, suffix))
  {
    SoleRecord(records, p, role, r);
  }

  lemma CompleteGroup(group: Records)
    requires GroupOf(group).Complete?
    ensures Filter(group, OfRole(Keyboard)) == [GroupOf(group).keyboard]
    ensures Filter(group, OfRole(Mouse)) == [GroupOf(group).mouse]
    ensures GroupOf(group).keyboard.node != GroupOf(group).mouse.node
  {
  }

  lemma FoundFrom(all: set<string>, kind: Kind, s: Selection) returns (p: string)
    requires SelectsFrom(all, kind, s) && s.Found?
    ensures p in all && kind(p).Complete? && s == Found(IdentityAt(kind, p))
    ensures Acceptable(kind(p).keyboard, kind(p).mouse)
  {
    p :| p in CompleteIn(all, kind) && s == Found(IdentityAt(kind, p));
  }

  /** A device found is the one keyboard and the one mouse of its group, on different nodes. */
  lemma FoundIsThePair(records: Records, s: Selection)
    requires Selects(records, s) && s.Found?
    ensures var id := s.identity;
            && SoleOfRole(records, id.parent, Keyboard, id.keyboard) && SoleOfRole(records, id.parent, Mouse, id.mouse)
            && id.keyboard.node != id.mouse.node && id.keyboard.syspath != id.mouse.syspath
  {
    var p := FoundFrom(Parents(Kept(records)), KindIn(Kept(records)), s);
    var group := Members(Kept(records), p);
    CompleteGroup(group);
    SoleInterface(records, p, Keyboard, GroupOf(group).keyboard, "event-kbd");
    SoleInterface(records, p, Mouse, GroupOf(group).mouse, "event-mouse");
  }

  // ---- The same, said of the properties ----

  predicate Says(r: UdevInputRecord, key: string) { key in r.properties && r.properties[key] == "1" }

  predicate IsKeyboardOnly(r: UdevInputRecord) { Says(r, "ID_INPUT_KEYBOARD") && !Says(r, "ID_INPUT_MOUSE") }

  predicate IsMouseOnly(r: UdevInputRecord) { Says(r, "ID_INPUT_MOUSE") && !Says(r, "ID_INPUT_KEYBOARD") }

  /** The value of the normalised property, or else of the raw one. */
  function Either(r: UdevInputRecord, normalised: string, raw: string): string {
    if normalised in r.properties then r.properties[normalised]
    else if raw in r.properties then r.properties[raw] else ""
  }

  predicate HasIds(r: UdevInputRecord) {
    && Lower(Either(r, "YYR4_NORMALIZED_VID", "ID_VENDOR_ID")) == "239a"
    && Lower(Either(r, "YYR4_NORMALIZED_PID", "ID_MODEL_ID")) == "80f4"
  }

  /** The two descriptor strings name the maker and the product, in either order. */
  predicate HasNames(r: UdevInputRecord) {
    var first := Either(r, "YYR4_NORMALIZED_MANUFACTURER", "ID_VENDOR");
    var second := Either(r, "YYR4_NORMALIZED_PRODUCT", "ID_MODEL");
    var makers, products := {"YOUYOU TEC.", "YOUYOU_TEC."}, {"YOUYOU Keyb_V2", "YOUYOU_Keyb_V2"};
    (first in makers && second in products) || (first in products && second in makers)
  }

  predicate OnUsb(r: UdevInputRecord) { "ID_BUS" in r.properties && r.properties["ID_BUS"] == "usb" }

  predicate OnInterface2(r: UdevInputRecord) {
    "ID_USB_INTERFACE_NUM" in r.properties && r.properties["ID_USB_INTERFACE_NUM"] in {"2", "02"}
  }

  /** Which records are kept, and why another one is not. */
  lemma MatchesAre(r: UdevInputRecord)
    ensures MatchOf(r) == NotUsb <==> !OnUsb(r)
    ensures MatchOf(r) == WrongProduct <==> OnUsb(r) && !(HasIds(r) && HasNames(r))
    ensures MatchOf(r) == WrongInterface <==> OnUsb(r) && HasIds(r) && HasNames(r) && !OnInterface2(r)
    ensures MatchOf(r) == Matched <==> OnUsb(r) && HasIds(r) && HasNames(r) && OnInterface2(r)
  {
    PaddedTo02(Property(r, "ID_USB_INTERFACE_NUM", ""));
  }

  lemma PaddedTo02(s: string)
    ensures ZFill2(s) == "02" <==> s == "2" || s == "02"
  {
    if |s| == 1 {
      assert s == [s[0]] && ("0" + s)[1] == s[0] && (s + "0")[0] == s[0];
      assert "02"[0] == '0' && "02"[1] == '2';
    }
  }

  lemma RolesAre(r: UdevInputRecord)
    ensures RoleOf(r) == Keyboard <==> IsKeyboardOnly(r)
    ensures RoleOf(r) == Mouse <==> IsMouseOnly(r)
    ensures RoleOf(r) == Both <==> Says(r, "ID_INPUT_KEYBOARD") && Says(r, "ID_INPUT_MOUSE")
  {
  }

  /** What an identity says of one of its two devices. */
  predicate Describes(interface: InputInterface, r: UdevInputRecord, role: Role, suffix: string) {
    && interface.role == role && interface.node == r.node && interface.name == r.name && interface.syspath == r.syspath
    && interface.parent == r.parent && interface.devlinks == r.devlinks
    && interface.stablePath == StablePath(r.devlinks, suffix)
  }

  predicate IsKeypad(r: UdevInputRecord, parent: string) {
    OnUsb(r) && HasIds(r) && HasNames(r) && OnInterface2(r) && r.parent == parent
  }

  /** Its node, its path and its parent are named. */
  predicate IsNamed(r: UdevInputRecord) { r.node != "" && r.syspath != "" && r.parent != "" }

  /** Among the keypad records of the parent the two are the only keyboard and the only mouse, and none
      is both. */
  ghost predicate OnlyPair(records: Records, parent: string, k: UdevInputRecord, m: UdevInputRecord) {
    && k in records && IsKeypad(k, parent) && IsKeyboardOnly(k)
    && m in records && IsKeypad(m, parent) && IsMouseOnly(m)
    && forall r :: r in records && IsKeypad(r, parent) ==>
         && !(Says(r, "ID_INPUT_KEYBOARD") && Says(r, "ID_INPUT_MOUSE"))
         && (IsKeyboardOnly(r) ==> r == k) && (IsMouseOnly(r) ==> r == m)
  }

  lemma GroupIsPair(records: Records, p: string)
    requires GroupOf(Members(Kept(records), p)).Complete?
    ensures var g := GroupOf(Members(Kept(records), p));
            OnlyPair(records, p, g.keyboard, g.mouse) && g.keyboard.node != g.mouse.node
  {
    var group := Members(Kept(records), p);
    var g := GroupOf(group);
    CompleteGroup(group);
    SoleRecord(records, p, Keyboard, g.keyboard);
    SoleRecord(records, p, Mouse, g.mouse);
    MatchesAre(g.keyboard);
    MatchesAre(g.mouse);
    RolesAre(g.keyboard);
    RolesAre(g.mouse);
    forall r | r in records && IsKeypad(r, p)
      ensures !(Says(r, "ID_INPUT_KEYBOARD") && Says(r, "ID_INPUT_MOUSE"))
      ensures (IsKeyboardOnly(r) ==> r == g.keyboard) && (IsMouseOnly(r) ==> r == g.mouse)
    {
      KeypadIsMember(records, p, r);
      RolesAre(r);
      InFilter(group, OfRole(Both), r);
      InFilter(group, OfRole(Keyboard), r);
      InFilter(group, OfRole(Mouse), r);
    }
  }

  lemma KeypadIsMember(records: Records, p: string, r: UdevInputRecord)
    requires r in records && IsKeypad(r, p)
    ensures r in Members(Kept(records), p)
  {
    MatchesAre(r);
    InFilter(records, Matching(Matched), r);
    InFilter(Kept(records), InGroup(p), r);
  }

  /** The identity found, off the properties: the only keyboard and the only mouse of one parent's keypad
      records, on different nodes, each described with its own stable path. */
  lemma FoundOffProperties(records: Records, s: Selection)
    requires Selects(records, s) && s.Found?
    ensures exists k, m :: && OnlyPair(records, s.identity.parent, k, m) && k.node != m.node
                           && Describes(s.identity.keyboard, k, Keyboard, "event-kbd")
                           && Describes(s.identity.mouse, m, Mouse, "event-mouse")
                           && (s.identity.serialPresent <==> "ID_SERIAL_SHORT" in k.properties)
                           && IsNamed(k) && IsNamed(m) && k.syspath != m.syspath
  {
    var p := FoundFrom(Parents(Kept(records)), KindIn(Kept(records)), s);
    var g := GroupOf(Members(Kept(records), p));
    GroupIsPair(records, p);
    IdentityDescribes(p, g.keyboard, g.mouse);
  }

  lemma IdentityDescribes(p: string, k: UdevInputRecord, m: UdevInputRecord)
    ensures var id := IdentityOf(p, k, m);
            && Describes(id.keyboard, k, Keyboard, "event-kbd") && Describes(id.mouse, m, Mouse, "event-mouse")
            && id.parent == p && (id.serialPresent <==> "ID_SERIAL_SHORT" in k.properties)
  {
  }

  /** `link` is the first of the links that is wanted. */
  predicate IsFirst(links: seq<string>, wanted: string -> bool, link: string) {
    exists i :: 0 <= i < |links| && links[i] == link && wanted(link) && forall j :: 0 <= j < i ==> !wanted(links[j])
  }

  lemma {:induction false} FirstLinkIsWanted(links: seq<string>, wanted: string -> bool)
    ensures match FirstLink(links, wanted)
            case Some(link) => IsFirst(links, wanted, link)
            case None => forall link :: link in links ==> !wanted(link)
  {
    if links != [] {
      FirstLinkIsWanted(links[1..], wanted);
      if wanted(links[0]) {
        assert links[0] == links[0] && IsFirst(links, wanted, links[0]);
      } else if FirstLink(links[1..], wanted).Some? {
        var link := FirstLink(links[1..], wanted).value;
        var i :| 0 <= i < |links[1..]| && links[1..][i] == link && forall j :: 0 <= j < i ==> !wanted(links[1..][j]);
        forall j | 0 <= j < i + 1 ensures !wanted(links[j]) {
          if j > 0 { assert links[j] == links[1..][j - 1]; }
        }
        assert links[i + 1] == link;
      }
    }
  }

  predicate NoneIs(links: seq<string>, wanted: string -> bool) { forall link :: link in links ==> !wanted(link) }

  /** The word is somewhere in the text. */
  ghost predicate HasWord(s: string, word: string) { exists i: nat :: IsAt(s, i, word) }

  lemma IsAtShift(s: string, i: nat, word: string)
    requires s != ""
    ensures IsAt(s, i + 1, word) <==> IsAt(s[1..], i, word)
  {
    if i + 1 + |word| <= |s| { assert s[i + 1..i + 1 + |word|] == s[1..][i..i + |word|]; }
  }

  lemma {:induction false} ContainsExactly(s: string, word: string)
    ensures Contains(s, word) <==> HasWord(s, word)
    decreases |s|
  {
    assert word <= s <==> IsAt(s, 0, word);
    if s != "" {
      ContainsExactly(s[1..], word);
      forall i: nat ensures IsAt(s, i + 1, word) <==> IsAt(s[1..], i, word) { IsAtShift(s, i, word); }
      if i: nat :| IsAt(s[1..], i, word) { assert IsAt(s, i + 1, word); }
      if i: nat :| IsAt(s, i, word) { assert i > 0 ==> IsAt(s[1..], i - 1, word); }
    }
  }

  /** The three kinds of links. */
  lemma LinkKindsAre(link: string, suffix: string)
    ensures ById(suffix)(link) <==> HasWord(link, "by-id") && HasWord(link, suffix)
    ensures ByPath(suffix)(link) <==> HasWord(link, "by-path") && HasWord(link, suffix)
    ensures AnyEvent()(link) <==>
              && HasWord(link, "by-path") && HasWord(link, "event")
              && !HasWord(link, "event-kbd") && !HasWord(link, "event-mouse")
  {
    ContainsExactly(link, "by-id");
    ContainsExactly(link, "by-path");
    ContainsExactly(link, suffix);
    ContainsExactly(link, "event");
    ContainsExactly(link, "event-kbd");
    ContainsExactly(link, "event-mouse");
  }

  /** The stable path: the first by-id link for the role; only if there is none, the first by-path
      link for the role; only if there is none either, the first by-path event link for no role. */
  lemma StablePathPrefers(links: seq<string>, suffix: string)
    ensures match StablePath(links, suffix)
            case Some(link) =>
              || IsFirst(links, ById(suffix), link)
              || (NoneIs(links, ById(suffix)) && IsFirst(links, ByPath(suffix), link))
              || (NoneIs(links, ById(suffix)) && NoneIs(links, ByPath(suffix)) && IsFirst(links, AnyEvent(), link))
            case None => NoneIs(links, ById(suffix)) && NoneIs(links, ByPath(suffix)) && NoneIs(links, AnyEvent())
  {
    FirstLinkIsWanted(links, ById(suffix));
    FirstLinkIsWanted(links, ByPath(suffix));
    FirstLinkIsWanted(links, AnyEvent());
  }

  /** Every group is of exactly one kind. */
  lemma GroupsPartition(all: set<string>, kind: Kind)
    ensures |CompleteIn(all, kind)| + |IncompleteIn(all, kind)| + |AmbiguousIn(all, kind)| == |all|
  {
    var c, i, a := CompleteIn(all, kind), IncompleteIn(all, kind), AmbiguousIn(all, kind);
    assert c !! i && (c + i) !! a && c + i + a == all;
    assert |c + i| == |c| + |i|;
  }

  // ---- The loops ----

  datatype DiscoveryDiagnostics = DiscoveryDiagnostics(
    enumerated: nat, matched: nat, completeGroups: nat, incompleteGroups: nat,
    rejectedProduct: nat, rejectedInterface: nat, ambiguousGroups: nat)

  function CountMatch(records: Records, m: Match): nat { |Filter(records, Matching(m))| }

  /** The inner loop over one group. */
  method PairUp(group: Records) returns (keyboard: Option<UdevInputRecord>, mouse: Option<UdevInputRecord>, ambiguous: bool)
    ensures var keyboards, mice := Filter(group, OfRole(Keyboard)), Filter(group, OfRole(Mouse));
            && (keyboard == if keyboards == [] then None else Some(keyboards[0]))
            && (mouse == if mice == [] then None else Some(mice[0]))
            && (ambiguous <==> Filter(group, OfRole(Both)) != [] || |keyboards| > 1 || |mice| > 1)
  {
    keyboard, mouse, ambiguous := None, None, false;
    for i := 0 to |group|
      invariant var keyboards, mice := Filter(group[..i], OfRole(Keyboard)), Filter(group[..i], OfRole(Mouse));
                && (keyboard == if keyboards == [] then None else Some(keyboards[0]))
                && (mouse == if mice == [] then None else Some(mice[0]))
                && (ambiguous <==> Filter(group[..i], OfRole(Both)) != [] || |keyboards| > 1 || |mice| > 1)
    {
      FilterSnoc(group, OfRole(Keyboard), i);
      FilterSnoc(group, OfRole(Mouse), i);
      FilterSnoc(group, OfRole(Both), i);
      match RoleOf(group[i]) {
        case Both => ambiguous := true;
        case Keyboard => if keyboard.None? { keyboard := Some(group[i]); } else { ambiguous := true; }
        case Mouse => if mouse.None? { mouse := Some(group[i]); } else { ambiguous := true; }
        case Neither =>
      }
    }
    assert group[..|group|] == group;
  }

  /** Where a parent first appears. */
  function FirstIndex(kept: Records, p: string): (i: nat)
    ensures i <= |kept| && (forall j :: 0 <= j < i ==> kept[j].parent != p) && (i < |kept| ==> kept[i].parent == p)
  {
    if kept == [] then 0 else if kept[0].parent == p then 0 else 1 + FirstIndex(kept[1..], p)
  }

  /** The names in order of first appearance, so each only once. */
  ghost predicate ByFirstAppearance(kept: Records, names: seq<string>) {
    && (forall i :: 0 <= i < |names| ==> names[i] in Parents(kept))
    && forall i, j :: 0 <= i < j < |names| ==> FirstIndex(kept, names[i]) < FirstIndex(kept, names[j])
  }

  lemma FirstIndexSnoc(kept: Records, r: UdevInputRecord, p: string)
    ensures p in Parents(kept) ==> FirstIndex(kept + [r], p) == FirstIndex(kept, p) < |kept|
    ensures p !in Parents(kept) && p == r.parent ==> FirstIndex(kept + [r], p) == |kept|
  {
    var i, j := FirstIndex(kept, p), FirstIndex(kept + [r], p);
    if p in Parents(kept) {
      var x :| x in kept && x.parent == p;
      var k :| 0 <= k < |kept| && kept[k] == x;
      assert (kept + [r])[i] == kept[i];
      assert j < |kept| ==> (kept + [r])[j] == kept[j];
    } else if p == r.parent {
      assert (kept + [r])[|kept|] == r;
      assert forall k :: 0 <= k < |kept| ==> kept[k] in kept && (kept + [r])[k] == kept[k];
    }
  }

  /** The dictionary built so far. */
  ghost predicate Groups(kept: Records, groups: map<string, Records>) {
    groups.Keys == Parents(kept) && forall p :: Members(kept, p) == if p in groups then groups[p] else []
  }

  /** Its keys, in order of first appearance. */
  ghost predicate Keys(kept: Records, order: seq<string>) {
    (forall p :: p in Parents(kept) ==> p in order) && ByFirstAppearance(kept, order)
  }

  ghost predicate Grouped(kept: Records, order: seq<string>, groups: map<string, Records>) {
    Groups(kept, groups) && Keys(kept, order)
  }

  lemma KeysSnoc(kept: Records, order: seq<string>, r: UdevInputRecord)
    requires Keys(kept, order)
    ensures Keys(kept + [r], if r.parent in Parents(kept) then order else order + [r.parent])
  {
    ParentsSnoc(kept, r);
    FirstIndexSnoc(kept, r, r.parent);
    forall i | 0 <= i < |order| ensures FirstIndex(kept + [r], order[i]) == FirstIndex(kept, order[i]) < |kept| {
      FirstIndexSnoc(kept, r, order[i]);
    }
  }

  lemma MembersSnoc(kept: Records, r: UdevInputRecord, p: string)
    ensures Members(kept + [r], p) == Members(kept, p) + if p == r.parent then [r] else []
  {
    assert (kept + [r])[..|kept|] == kept;
  }

  lemma ParentsSnoc(kept: Records, r: UdevInputRecord)
    ensures Parents(kept + [r]) == Parents(kept) + {r.parent}
  {
    assert r in kept + [r];
  }

  function GroupWith(groups: map<string, Records>, r: UdevInputRecord): map<string, Records> {
    groups[r.parent := (if r.parent in groups then groups[r.parent] else []) + [r]]
  }

  lemma GroupSnoc(groups: map<string, Records>, r: UdevInputRecord, kept: Records, p: string)
    requires Members(kept, p) == if p in groups then groups[p] else []
    ensures Members(kept + [r], p) == if p in GroupWith(groups, r) then GroupWith(groups, r)[p] else []
  {
    MembersSnoc(kept, r, p);
  }

  lemma GroupsSnoc(groups: map<string, Records>, r: UdevInputRecord, kept: Records)
    requires Groups(kept, groups)
    ensures Groups(kept + [r], GroupWith(groups, r))
  {
    ParentsSnoc(kept, r);
    forall p ensures Members(kept + [r], p) == if p in GroupWith(groups, r) then GroupWith(groups, r)[p] else [] {
      GroupSnoc(groups, r, kept, p);
    }
  }

  /** `groups.setdefault(parent, []).append(rec)`. */
  method AddToGroup(order: seq<string>, groups: map<string, Records>, r: UdevInputRecord, ghost kept: Records)
    returns (order1: seq<string>, groups1: map<string, Records>)
    requires Grouped(kept, order, groups)
    ensures Grouped(kept + [r], order1, groups1)
  {
    GroupsSnoc(groups, r, kept);
    KeysSnoc(kept, order, r);
    if r.parent in groups {
      order1, groups1 := order, groups[r.parent := groups[r.parent] + [r]];
    } else {
      assert [] + [r] == [r];
      order1, groups1 := order + [r.parent], groups[r.parent := [r]];
    }
  }

  lemma CountersSnoc(records: Records, n: nat, found: Match)
    requires n < |records| && found == MatchOf(records[n])
    ensures Kept(records[..n + 1]) == Kept(records[..n]) + if found == Matched then [records[n]] else []
    ensures forall m :: CountMatch(records[..n + 1], m) == CountMatch(records[..n], m) + if found == m then 1 else 0
  {
    FilterSnoc(records, Matching(Matched), n);
    forall m ensures CountMatch(records[..n + 1], m) == CountMatch(records[..n], m) + if found == m then 1 else 0 {
      FilterSnoc(records, Matching(m), n);
    }
  }

  method Classify(r: UdevInputRecord) returns (found: Match)
    ensures found == MatchOf(r)
  {
    found := MatchOf(r);
  }

  /** The grouping loop, with its counters. */
  method GroupRecords(records: Records)
    returns (order: seq<string>, groups: map<string, Records>, matched: nat, rejectedProduct: nat, rejectedInterface: nat)
    ensures Grouped(Kept(records), order, groups)
    ensures matched == CountMatch(records, Matched)
    ensures rejectedProduct == CountMatch(records, WrongProduct) && rejectedInterface == CountMatch(records, WrongInterface)
  {
    order, groups, matched, rejectedProduct, rejectedInterface := [], map[], 0, 0, 0;
    for n := 0 to |records|
      invariant Grouped(Kept(records[..n]), order, groups)
      invariant matched == CountMatch(records[..n], Matched)
      invariant rejectedProduct == CountMatch(records[..n], WrongProduct)
      invariant rejectedInterface == CountMatch(records[..n], WrongInterface)
    {
      var found := Classify(records[n]);
      CountersSnoc(records, n, found);
      if found == Matched {
        matched := matched + 1;
        order, groups := AddToGroup(order, groups, records[n], Kept(records[..n]));
      } else {
        assert Kept(records[..n]) + [] == Kept(records[..n]);
        if found == WrongProduct {
          rejectedProduct := rejectedProduct + 1;
        } else if found == WrongInterface {
          rejectedInterface := rejectedInterface + 1;
        }
      }
    }
    assert records[..|records|] == records;
  }

  function Completes(kind: Kind): string -> bool { p => kind(p).Complete? }

  /** One identity for each complete group met, in the order they were met. */
  ghost predicate Identified(kind: Kind, met: seq<string>, identities: seq<YYR4Identity>) {
    IdentitiesOf(kind, Filter(met, Completes(kind)), identities)
  }

  ghost predicate IdentitiesOf(kind: Kind, complete: seq<string>, identities: seq<YYR4Identity>) {
    && |identities| == |complete|
    && forall k :: 0 <= k < |complete| ==> kind(complete[k]).Complete? && identities[k] == IdentityAt(kind, complete[k])
  }

  /** The counters of the groups met. */
  ghost predicate Counts(kind: Kind, done: set<string>, complete: nat, incomplete: nat, ambiguous: nat) {
    && complete == |CompleteIn(done, kind)|
    && incomplete == |IncompleteIn(done, kind)| && ambiguous == |AmbiguousIn(done, kind)|
  }

  /** The roles of one group, as the loop finds them. */
  method Inspect(group: Records) returns (g: Group)
    ensures g == GroupOf(group)
  {
    var keyboard, mouse, ambiguous := PairUp(group);
    if ambiguous { return AmbiguousGroup; }
    if keyboard.None? || mouse.None? { return Incomplete; }
    if keyboard.value.node == mouse.value.node { return AmbiguousGroup; }
    return Complete(keyboard.value, mouse.value);
  }

  lemma OneMore(all: set<string>, keep: string -> bool, p: string)
    requires p !in all
    ensures |Those(all + {p}, keep)| == |Those(all, keep)| + if keep(p) then 1 else 0
  {
    assert Those(all + {p}, keep) == Those(all, keep) + if keep(p) then {p} else {};
  }

  lemma OneMoreGroup(kind: Kind, done: set<string>, p: string)
    requires p !in done
    ensures |CompleteIn(done + {p}, kind)| == |CompleteIn(done, kind)| + if kind(p).Complete? then 1 else 0
    ensures |IncompleteIn(done + {p}, kind)| == |IncompleteIn(done, kind)| + if kind(p).Incomplete? then 1 else 0
    ensures |AmbiguousIn(done + {p}, kind)| == |AmbiguousIn(done, kind)| + if kind(p).AmbiguousGroup? then 1 else 0
  {
    OneMore(done, p => kind(p).Complete?, p);
    OneMore(done, p => kind(p).Incomplete?, p);
    OneMore(done, p => kind(p).AmbiguousGroup?, p);
  }

  lemma CountOneMore(kind: Kind, done: set<string>, p: string, complete: nat, incomplete: nat, ambiguous: nat)
    requires Counts(kind, done, complete, incomplete, ambiguous) && p !in done
    ensures Counts(kind, done + {p}, complete + if kind(p).Complete? then 1 else 0,
                   incomplete + if kind(p).Incomplete? then 1 else 0, ambiguous + if kind(p).AmbiguousGroup? then 1 else 0)
  {
    OneMoreGroup(kind, done, p);
  }

  lemma IdentifyOne(kind: Kind, met: seq<string>, identities: seq<YYR4Identity>, p: string)
    requires Identified(kind, met, identities)
    ensures Identified(kind, met + [p], if kind(p).Complete? then identities + [IdentityAt(kind, p)] else identities)
  {
    var complete := Filter(met, Completes(kind));
    FilterSnoc(met + [p], Completes(kind), |met|);
    assert (met + [p])[..|met|] == met && (met + [p])[..|met| + 1] == met + [p];
    if kind(p).Complete? {
      IdentitiesSnoc(kind, complete, identities, p);
    } else {
      assert complete + [] == complete;
    }
  }

  lemma IdentitiesSnoc(kind: Kind, complete: seq<string>, identities: seq<YYR4Identity>, p: string)
    requires IdentitiesOf(kind, complete, identities) && kind(p).Complete?
    ensures IdentitiesOf(kind, complete + [p], identities + [IdentityAt(kind, p)])
  {
  }

  function Elements(s: seq<string>): set<string> { set x | x in s }

  lemma ElementsSnoc(s: seq<string>, n: nat)
    requires n < |s| && Distinct(s)
    ensures s[..n + 1] == s[..n] + [s[n]] && s[n] !in Elements(s[..n])
    ensures Elements(s[..n + 1]) == Elements(s[..n]) + {s[n]}
  {
    assert s[..n + 1] == s[..n] + [s[n]];
  }

  /** The loop over the groups. Refused means an identity constructor raised. */
  method DivideGroups(order: seq<string>, groups: map<string, Records>, ghost kind: Kind)
    returns (accepted: bool, identities: seq<YYR4Identity>, incomplete: nat, ambiguous: nat)
    requires Distinct(order)
    requires forall p :: p in order ==> p in groups && GroupOf(groups[p]) == kind(p)
    ensures accepted <==> AllAcceptable(Elements(order), kind)
    ensures accepted ==>
              && Identified(kind, order, identities)
              && Counts(kind, Elements(order), |identities|, incomplete, ambiguous)
  {
    identities, incomplete, ambiguous := [], 0, 0;
    for n := 0 to |order|
      invariant AllAcceptable(Elements(order[..n]), kind)
      invariant Identified(kind, order[..n], identities)
      invariant Counts(kind, Elements(order[..n]), |identities|, incomplete, ambiguous)
    {
      var p := order[n];
      ElementsSnoc(order, n);
      CountOneMore(kind, Elements(order[..n]), p, |identities|, incomplete, ambiguous);
      IdentifyOne(kind, order[..n], identities, p);
      var group := Inspect(groups[p]);
      match group {
        case AmbiguousGroup => ambiguous := ambiguous + 1;
        case Incomplete => incomplete := incomplete + 1;
        case Complete(keyboard, mouse) =>
          if !Acceptable(keyboard, mouse) {
            assert p in Elements(order);
            return false, [], 0, 0;
          }
          identities := identities + [IdentityOf(p, keyboard, mouse)];
      }
    }
    assert order[..|order|] == order;
    accepted := true;
  }

  lemma GroupedKinds(kept: Records, order: seq<string>, groups: map<string, Records>, all: set<string>, kind: Kind)
    requires Grouped(kept, order, groups) && all == Parents(kept) && kind == KindIn(kept)
    ensures Elements(order) == all && Distinct(order)
    ensures forall p :: p in order ==> p in groups && GroupOf(groups[p]) == kind(p)
  {
  }

  /** The identities of the complete groups, in order of first appearance, and the counters of a
      whole enumeration. */
  ghost predicate Reports(
      records: Records, order: seq<string>, kind: Kind, identities: seq<YYR4Identity>, d: DiscoveryDiagnostics)
  {
    && AllAcceptable(Elements(order), kind) && Identified(kind, order, identities)
    && Counts(kind, Elements(order), |identities|, d.incompleteGroups, d.ambiguousGroups)
    && d == DiscoveryDiagnostics(
         |records|, CountMatch(records, Matched), |identities|, d.incompleteGroups,
         CountMatch(records, WrongProduct), CountMatch(records, WrongInterface), d.ambiguousGroups)
  }

  /** `select_single`'s decision, from what was reported. */
  method Decide(identities: seq<YYR4Identity>, d: DiscoveryDiagnostics,
                ghost records: Records, ghost order: seq<string>, ghost kind: Kind)
      returns (s: Selection)
    requires Reports(records, order, kind, identities, d)
    ensures SelectsFrom(Elements(order), kind, s)
  {
    if |identities| > 1 || d.ambiguousGroups > 0 { return Ambiguous; }
    if d.incompleteGroups > 0 && |identities| == 0 { return OnlyIncomplete; }
    if |identities| == 0 { return NotFound; }
    ghost var p := Filter(order, Completes(kind))[0];
    InFilter(order, Completes(kind), p);
    assert identities[0] == IdentityAt(kind, p) && p in CompleteIn(Elements(order), kind);
    return Found(identities[0]);
  }

  class YYR4DeviceDiscovery {
    var diagnostics: DiscoveryDiagnostics

    constructor ()
      ensures diagnostics == DiscoveryDiagnostics(0, 0, 0, 0, 0, 0, 0)
    {
      diagnostics := DiscoveryDiagnostics(0, 0, 0, 0, 0, 0, 0);
    }

    /** `discover_all`: the complete groups, each once, in order of first appearance. A refused group
        leaves the diagnostics of the previous call. */
    method DiscoverAll(records: Records) returns (accepted: bool, identities: seq<YYR4Identity>, ghost order: seq<string>)
      modifies this
      ensures Keys(Kept(records), order) && Elements(order) == Parents(Kept(records)) && Distinct(order)
      ensures accepted <==> AllAcceptable(Elements(order), KindIn(Kept(records)))
      ensures accepted ==> Reports(records, order, KindIn(Kept(records)), identities, diagnostics)
      ensures !accepted ==> diagnostics == old(diagnostics)
    {
      var names, groups, matched, rejectedProduct, rejectedInterface := GroupRecords(records);
      order := names;
      ghost var kind := KindIn(Kept(records));
      GroupedKinds(Kept(records), order, groups, Parents(Kept(records)), kind);
      var incomplete, ambiguous;
      accepted, identities, incomplete, ambiguous := DivideGroups(names, groups, kind);
      if accepted {
        diagnostics := DiscoveryDiagnostics(
          |records|, matched, |identities|, incomplete, rejectedProduct, rejectedInterface, ambiguous);
      }
    }

    /** `select_single`. */
    method SelectSingle(records: Records) returns (s: Selection)
      modifies this
      ensures Selects(records, s)
    {
      var accepted, identities, order := DiscoverAll(records);
      if !accepted { return Invalid; }
      s := Decide(identities, diagnostics, records, order, KindIn(Kept(records)));
    }
  }

  /** Every USB record is counted once, as matched or as rejected. */
  lemma {:induction false} RecordsPartition(records: Records)
    ensures CountMatch(records, Matched) + CountMatch(records, WrongProduct) + CountMatch(records, WrongInterface)
              == |records| - CountMatch(records, NotUsb)
  {
    if records != [] {
      var n := |records| - 1;
      RecordsPartition(records[..n]);
      CountersSnoc(records, n, MatchOf(records[n]));
      assert records[..n + 1] == records;
    }
  }
}
