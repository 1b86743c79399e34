/** A recursive-descent reader for the TOML v1.0.0 documents the serializer emits: top-level
    dotted bare keys, basic strings, decimal integers, arrays and inline tables
    (sections "Keys", "String", "Array" and "Inline Table" of the TOML v1.0.0 specification). */
module Toml {
  import opened Wrappers
  import opened Text

  /** A decoded TOML or JSON value. Inline tables are closed: no later dotted key may extend them. */
  datatype Value =
    | Null
    | Bool(b: bool)
    | Int(n: int)
    | Float(r: real)
    | Str(s: string)
    | Arr(items: seq<Value>)
    | Table(entries: map<string, Value>, inline: bool)

  type Entries = map<string, Value>

  /** `d.get(key)` */
  function Get(m: Entries, key: string): Value {
    if key in m then m[key] else Null
  }

  datatype Read<+T> = Got(value: T, rest: string) | Bad {
    predicate IsFailure() { Bad? }

    function PropagateFailure<U>(): Read<U>
      requires Bad?
    {
      Bad
    }

    function Extract(): (T, string)
      requires Got?
    {
      (value, rest)
    }
  }

  // ---- Characters and whitespace ----

  predicate IsBare(c: char) {
    'a' <= c <= 'z' || 'A' <= c <= 'Z' || IsDigit(c) || c == '_' || c == '-'
  }

  predicate AllBare(s: string) { forall i :: 0 <= i < |s| ==> IsBare(s[i]) }

  predicate IsControlChar(c: char) { c < ' ' || c == '\U{7F}' }

  function SkipBlanks(s: string): (r: string)
    ensures |r| <= |s|
  {
    if s != "" && (s[0] == ' ' || s[0] == '\t') then SkipBlanks(s[1..]) else s
  }

  function SkipLines(s: string): (r: string)
    ensures |r| <= |s|
  {
    if s != "" && (s[0] == ' ' || s[0] == '\t' || s[0] == '\n') then SkipLines(s[1..]) else s
  }

  // ---- Keys ----

  function BareLength(s: string): (n: nat)
    ensures n <= |s|
  {
    if s != "" && IsBare(s[0]) then 1 + BareLength(s[1..]) else 0
  }

  function ReadBareKey(s: string): (r: Read<string>)
    ensures r.Got? ==> |r.rest| < |s|
  {
    var n := BareLength(s);
    if n == 0 then Bad else Got(s[..n], s[n..])
  }

  /** A dotted key; blanks may surround each dot and follow the key. */
  function ReadKey(s: string): (r: Read<seq<string>>)
    ensures r.Got? ==> |r.rest| < |s| && r.value != []
    decreases |s|
  {
    var (k, rest) :- ReadBareKey(s);
    var s1 := SkipBlanks(rest);
    if s1 != "" && s1[0] == '.' then
      var (ks, rest1) :- ReadKey(SkipBlanks(s1[1..]));
      Got([k] + ks, rest1)
    else
      Got([k], s1)
  }

  // ---- Strings ----

  function Unescape(c: char): Option<char> {
    match c
    case 'b' => Some('\U{8}')
    case 't' => Some('\t')
    case 'n' => Some('\n')
    case 'f' => Some('\U{C}')
    case 'r' => Some('\r')
    case '"' => Some('"')
    case '\\' => Some('\\')
    case _ => None
  }

  function HexNumber(s: string): nat
    requires forall i :: 0 <= i < |s| ==> IsHex(s[i])
  {
    if s == "" then 0 else 16 * HexNumber(s[..|s| - 1]) + HexValue(s[|s| - 1])
  }

  /** A `\u` or `\U` escape after its letter: `width` hex digits naming a Unicode scalar value. */
  function ReadHexEscape(s: string, width: nat): (r: Read<char>)
    ensures r.Got? ==> |r.rest| <= |s|
  {
    if |s| < width || exists i :: 0 <= i < width && !IsHex(s[i]) then Bad
    else
      var n := HexNumber(s[..width]);
      if n < 0xD800 || 0xE000 <= n < 0x11_0000 then Got(n as char, s[width..]) else Bad
  }

  /** The body of a basic string up to and including its closing quote. */
  function ReadBasicBody(s: string): (r: Read<string>)
    ensures r.Got? ==> |r.rest| < |s|
  {
    if s == "" then Bad
    else if s[0] == '"' then Got("", s[1..])
    else if s[0] == '\\' then
      if |s| < 2 then Bad
      else if s[1] == 'u' || s[1] == 'U' then
        var (c, rest) :- ReadHexEscape(s[2..], if s[1] == 'u' then 4 else 8);
        var (cs, rest1) :- ReadBasicBody(rest);
        Got([c] + cs, rest1)
      else
        var u := Unescape(s[1]);
        if u.None? then Bad
        else
          var (cs, rest1) :- ReadBasicBody(s[2..]);
          Got([u.value] + cs, rest1)
    else if IsControlChar(s[0]) && s[0] != '\t' then Bad
    else
      var (cs, rest1) :- ReadBasicBody(s[1..]);
      Got([s[0]] + cs, rest1)
  }

  /** A basic string; `"""` would open a multi-line string, which is never emitted. */
  function ReadString(s: string): (r: Read<string>)
    ensures r.Got? ==> |r.rest| < |s|
  {
    if s == "" || s[0] != '"' then Bad
    else if |s| >= 3 && s[1] == '"' && s[2] == '"' then Bad
    else ReadBasicBody(s[1..])
  }

  // ---- Integers ----

  function DigitsLength(s: string): (n: nat)
    ensures n <= |s|
    ensures forall i :: 0 <= i < n ==> IsDigit(s[i])
  {
    if s != "" && IsDigit(s[0]) then
      assert forall i :: 1 <= i < |s| ==> s[i] == s[1..][i - 1];
      1 + DigitsLength(s[1..])
    else 0
  }

  /** An unsigned decimal without leading zeros. */
  function ReadNatural(s: string): (r: Read<nat>)
    ensures r.Got? ==> |r.rest| < |s|
  {
    var n := DigitsLength(s);
    if n == 0 || (n > 1 && s[0] == '0') then Bad else Got(NumeralValue(s[..n]), s[n..])
  }

  function ReadInteger(s: string): (r: Read<int>)
    ensures r.Got? ==> |r.rest| < |s|
  {
    if s != "" && (s[0] == '-' || s[0] == '+') then
      var (n, rest) :- ReadNatural(s[1..]);
      var signed: int := n;
      Got(if s[0] == '-' then -signed else signed, rest)
    else
      var (n, rest) :- ReadNatural(s);
      Got(n, rest)
  }

  // ---- Values ----

  function ReadValue(s: string): (r: Read<Value>)
    ensures r.Got? ==> |r.rest| < |s|
    decreases |s|, 1
  {
    if s == "" then Bad
    else if s[0] == '"' then
      var (t, rest) :- ReadString(s);
      Got(Str(t), rest)
    else if s[0] == '[' then
      var (items, rest) :- ReadItems(s[1..]);
      Got(Arr(items), rest)
    else if s[0] == '{' then
      var s1 := SkipBlanks(s[1..]);
      if s1 != "" && s1[0] == '}' then Got(Table(map[], true), s1[1..])
      else
        var (m, rest) :- ReadFields(s1, map[]);
        Got(Table(m, true), rest)
    else
      var (n, rest) :- ReadInteger(s);
      Got(Int(n), rest)
  }

  /** Array items up to and including `]`; newlines are allowed between them. */
  function ReadItems(s: string): (r: Read<seq<Value>>)
    ensures r.Got? ==> |r.rest| < |s|
    decreases |s|, 2
  {
    var s1 := SkipLines(s);
    if s1 == "" then Bad
    else if s1[0] == ']' then Got([], s1[1..])
    else
      var (v, rest) :- ReadValue(s1);
      var s2 := SkipLines(rest);
      if s2 == "" then Bad
      else if s2[0] == ']' then Got([v], s2[1..])
      else if s2[0] == ',' then
        var (vs, rest2) :- ReadItems(s2[1..]);
        Got([v] + vs, rest2)
      else Bad
  }

  /** Fields of an inline table up to and including `}`, added to `m`. */
  function ReadFields(s: string, m: Entries): (r: Read<Entries>)
    ensures r.Got? ==> |r.rest| < |s|
    decreases |s|, 2
  {
    var (path, rest) :- ReadKey(s);
    if rest == "" || rest[0] != '=' then Bad
    else
      var (v, rest1) :- ReadValue(SkipBlanks(rest[1..]));
      var m1 := Insert(m, path, v);
      var s2 := SkipBlanks(rest1);
      if m1.None? || s2 == "" then Bad
      else if s2[0] == '}' then Got(m1.value, s2[1..])
      else if s2[0] == ',' then ReadFields(SkipBlanks(s2[1..]), m1.value)
      else Bad
  }

  // ---- Documents ----

  /** Store a value under a dotted key; redefining a key or extending a closed table is an error. */
  function Insert(m: Entries, path: seq<string>, v: Value): Option<Entries>
    requires path != []
    decreases |path|
  {
    var k := path[0];
    if |path| == 1 then
      if k in m then None else Some(m[k := v])
    else if k in m && !(m[k].Table? && !m[k].inline) then None
    else
      var sub := if k in m then m[k].entries else map[];
      var sub1 :- Insert(sub, path[1..], v);
      Some(m[k := Table(sub1, false)])
  }

  /** Statements, one per line, added to the root table `m`. */
  function ReadDocument(s: string, m: Entries): Option<Entries>
    decreases |s|
  {
    var s1 := SkipBlanks(s);
    if s1 == "" then Some(m)
    else if s1[0] == '\n' then ReadDocument(s1[1..], m)
    else
      match ReadKey(s1)
      case Bad => None
      case Got(path, rest) =>
        if rest == "" || rest[0] != '=' then None
        else
          match ReadValue(SkipBlanks(rest[1..]))
          case Bad => None
          case Got(v, rest1) =>
            var m1 :- Insert(m, path, v);
            var s2 := SkipBlanks(rest1);
            if s2 == "" then Some(m1)
            else if s2[0] == '\n' then ReadDocument(s2[1..], m1)
            else None
  }

  /** `tomllib.loads` */
  function Loads(text: string): Option<Entries> {
    ReadDocument(text, map[])
  }
}
