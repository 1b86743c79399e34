/** Reading back what the serializer prints: strings, numbers, arrays, inline tables, actions,
    statements and finally whole configurations. */
module RoundTrip {
  import opened Wrappers
  import opened Text
  import opened ControlModel
  import opened Toml
  import opened ConfigParser
  import opened ActionSpec
  import opened Serializer

  // ---- Strings ----

  /** Escaping then a quote reads back as the string itself: the first unescaped quote closes it. */
  lemma {:induction false} ReadEscaped(s: string, rest: string)
    ensures ReadBasicBody(Escape(s) + "\"" + rest) == Got(s, rest)
  {
    if s == "" {
      ReadClosingQuote("", rest);
    } else {
      var more := Escape(s[1..]) + "\"" + rest;
      ReadEscaped(s[1..], rest);
      EscapeHead(s, rest);
      ReadEscapedChar(s[0], more);
      assert s == [s[0]] + s[1..];
    }
  }

  lemma ReadClosingQuote(none: string, rest: string)
    requires none == ""
    ensures ReadBasicBody(none + "\"" + rest) == Got("", rest)
  {
    var text := none + "\"" + rest;
    assert text[0] == '"' && text[1..] == rest;
  }

  lemma EscapeHead(s: string, rest: string)
    requires s != ""
    ensures Escape(s) + "\"" + rest == EscapeChar(s[0]) + (Escape(s[1..]) + "\"" + rest)
  {
  }

  lemma ReadEscapedChar(c: char, more: string)
    requires ReadBasicBody(more).Got?
    ensures ReadBasicBody(EscapeChar(c) + more) == Got([c] + ReadBasicBody(more).value, ReadBasicBody(more).rest)
  {
    var e := EscapeChar(c);
    if e == [c] {
      ReadPlainChar(c, more);
    } else if |e| == 2 {
      ShortEscape(c);
      ReadShortEscape(e[1], more);
    } else {
      var h := ['0', '0', HexDigit(c as int / 16), HexDigit(c as int % 16)];
      LongEscape(c);
      ReadControlEscape(c as int, more);
      ReadLongEscape(h, more);
    }
  }

  lemma ShortEscape(c: char)
    requires |EscapeChar(c)| == 2
    ensures EscapeChar(c) == ['\\', EscapeChar(c)[1]] && Unescape(EscapeChar(c)[1]) == Some(c)
  {
  }

  lemma LongEscape(c: char)
    requires |EscapeChar(c)| > 2
    ensures c as int < 128
    ensures EscapeChar(c) == "\\u" + ['0', '0', HexDigit(c as int / 16), HexDigit(c as int % 16)]
  {
  }

  lemma ReadPlainChar(c: char, more: string)
    requires c != '"' && c != '\\' && (!IsControlChar(c) || c == '\t')
    requires ReadBasicBody(more).Got?
    ensures ReadBasicBody([c] + more) == Got([c] + ReadBasicBody(more).value, ReadBasicBody(more).rest)
  {
    assert ([c] + more)[1..] == more;
  }

  lemma ReadShortEscape(e: char, more: string)
    requires Unescape(e).Some?
    requires ReadBasicBody(more).Got?
    ensures ReadBasicBody(['\\', e] + more)
         == Got([Unescape(e).value] + ReadBasicBody(more).value, ReadBasicBody(more).rest)
  {
    assert (['\\', e] + more)[2..] == more;
  }

  lemma ReadLongEscape(h: string, more: string)
    requires ReadHexEscape(h + more, 4).Got? && ReadHexEscape(h + more, 4).rest == more
    requires ReadBasicBody(more).Got?
    ensures ReadBasicBody("\\u" + h + more)
         == Got([ReadHexEscape(h + more, 4).value] + ReadBasicBody(more).value, ReadBasicBody(more).rest)
  {
    assert ("\\u" + h + more)[2..] == h + more;
  }

  lemma ReadControlEscape(n: nat, more: string)
    requires n < 128
    ensures ReadHexEscape(['0', '0', HexDigit(n / 16), HexDigit(n % 16)] + more, 4) == Got(n as char, more)
  {
    var hi, lo := HexDigit(n / 16), HexDigit(n % 16);
    var h := ['0', '0', hi, lo];
    assert (h + more)[..4] == h && (h + more)[4..] == more;
    assert forall i :: 0 <= i < 4 ==> (h + more)[i] == h[i] && IsHex(h[i]);
    calc {
      HexNumber(h);
      { assert h[..3] == ['0', '0', hi]; }
      16 * HexNumber(['0', '0', hi]) + n % 16;
      { assert ['0', '0', hi][..2] == ['0', '0']; }
      16 * (16 * HexNumber(['0', '0']) + n / 16) + n % 16;
      { assert ['0', '0'][..1] == ['0']; assert ['0'][..0] == ""; }
      16 * (n / 16) + n % 16;
      n;
    }
  }

  /** The characters a value may be followed by: none that could continue it. */
  predicate Ends(rest: string) {
    rest == "" || (rest[0] != '"' && !IsDigit(rest[0]))
  }

  lemma ReadTomlStr(s: string, rest: string)
    requires Ends(rest)
    ensures ReadValue(TomlStr(s) + rest) == Got(Str(s), rest)
  {
    ReadEscaped(s, rest);
    NotTripleQuoted(s, rest);
    ReadQuoted(TomlStr(s) + rest, s, rest);
  }

  /** The text of a string never opens a multi-line string. */
  lemma NotTripleQuoted(s: string, rest: string)
    requires Ends(rest)
    ensures var text := TomlStr(s) + rest;
            && text[0] == '"' && text[1..] == Escape(s) + "\"" + rest
            && !(|text| >= 3 && text[1] == '"' && text[2] == '"')
  {
    var text := TomlStr(s) + rest;
    if s != "" {
      assert text[1] == Escape(s)[0] == EscapeChar(s[0])[0] != '"';
    } else {
      assert text == "\"\"" + rest;
    }
  }

  lemma ReadQuoted(text: string, s: string, rest: string)
    requires text != "" && text[0] == '"' && !(|text| >= 3 && text[1] == '"' && text[2] == '"')
    requires ReadBasicBody(text[1..]) == Got(s, rest)
    ensures ReadValue(text) == Got(Str(s), rest)
  {
  }

  // ---- Integers ----

  lemma {:induction false} DigitsLengthAll(s: string, rest: string)
    requires forall i :: 0 <= i < |s| ==> IsDigit(s[i])
    requires rest == "" || !IsDigit(rest[0])
    ensures DigitsLength(s + rest) == |s|
  {
    if s == "" {
      assert s + rest == rest;
    } else {
      DigitsLengthAll(s[1..], rest);
      assert (s + rest)[1..] == s[1..] + rest;
    }
  }

  lemma ReadDecimal(n: nat, rest: string)
    requires Ends(rest)
    ensures ReadNatural(Decimal(n) + rest) == Got(n, rest)
  {
    var d := Decimal(n);
    DigitsLengthAll(d, rest);
    DecimalDenotes(n);
    assert (d + rest)[..|d|] == d && (d + rest)[|d|..] == rest;
  }

  lemma ReadIntegerText(n: int, rest: string)
    requires Ends(rest)
    ensures ReadInteger(IntText(n) + rest) == Got(n, rest)
  {
    if n < 0 {
      ReadDecimal(-n, rest);
      ReadNegative(Decimal(-n) + rest);
      ConcatAssoc("-", Decimal(-n), rest);
    } else {
      ReadDecimal(n, rest);
      ReadPositive(Decimal(n) + rest);
    }
  }

  lemma ReadPositive(s: string)
    requires ReadNatural(s).Got? && s != "" && IsDigit(s[0])
    ensures ReadInteger(s) == (var n: int := ReadNatural(s).value; Got(n, ReadNatural(s).rest))
  {
  }

  lemma ReadNegative(s: string)
    requires ReadNatural(s).Got?
    ensures ReadInteger("-" + s) == (var n: int := ReadNatural(s).value; Got(-n, ReadNatural(s).rest))
  {
    assert ("-" + s)[1..] == s;
  }

  lemma ReadIntText(n: int, rest: string)
    requires Ends(rest)
    ensures ReadValue(IntText(n) + rest) == Got(Int(n), rest)
  {
    var text := IntText(n) + rest;
    ReadIntegerText(n, rest);
    assert text[0] == '-' || IsDigit(text[0]);
  }

  // ---- Arrays of strings ----

  predicate StartsValue(s: string) { s != "" && s[0] != ']' && s[0] !in " \t\n" }

  /** One step of the array reader, and its last one. */
  lemma ReadMoreItems(s: string, v: Value, after: string)
    requires StartsValue(s) && ReadValue(s) == Got(v, after)
    requires after != "" && after[0] == ',' && ReadItems(after[1..]).Got?
    ensures ReadItems(s) == Got([v] + ReadItems(after[1..]).value, ReadItems(after[1..]).rest)
  {
  }

  lemma ReadLastItem(s: string, v: Value, after: string, rest: string)
    requires StartsValue(s) && ReadValue(s) == Got(v, after)
    requires SkipLines(after) == "]" + rest
    ensures ReadItems(s) == Got([v], rest)
  {
    assert ("]" + rest)[1..] == rest;
  }

  lemma {:induction false} ReadStringItems(ss: seq<string>, rest: string)
    ensures ReadItems(Join(TomlStrParts(ss), ", ") + "]" + rest) == Got(StrItems(ss), rest)
  {
    var parts := TomlStrParts(ss);
    if ss == [] {
      assert Join(parts, ", ") + "]" + rest == "]" + rest;
    } else if |ss| == 1 {
      ReadTomlStr(ss[0], "]" + rest);
      ReadLastItem(TomlStr(ss[0]) + ("]" + rest), Str(ss[0]), "]" + rest, rest);
      assert ss[1..] == [] && StrItems(ss) == [Str(ss[0])];
      assert Join(parts, ", ") + "]" + rest == TomlStr(ss[0]) + ("]" + rest);
    } else {
      ReadStringItems(ss[1..], rest);
      assert parts[1..] == TomlStrParts(ss[1..]);
      ReadAnotherString(ss[0], Join(parts[1..], ", ") + "]" + rest);
      SplitText(TomlStr(ss[0]), ", ", Join(parts[1..], ", "), "]", rest);
    }
  }

  lemma ReadAnotherString(s: string, more: string)
    requires ReadItems(more).Got?
    ensures ReadItems(TomlStr(s) + (", " + more)) == Got([Str(s)] + ReadItems(more).value, ReadItems(more).rest)
  {
    var after := ", " + more;
    ReadTomlStr(s, after);
    assert after[1..] == " " + more;
    SkippedBlank(more);
    ReadMoreItems(TomlStr(s) + after, Str(s), after);
  }

  lemma SkippedBlank(more: string)
    ensures ReadItems(" " + more) == ReadItems(more)
  {
    assert (" " + more)[1..] == more;
    assert SkipLines(" " + more) == SkipLines(more);
  }

  lemma SplitText(a: string, b: string, c: string, d: string, e: string)
    ensures (a + b + c) + d + e == a + (b + (c + d + e))
  {
  }

  lemma ReadTomlStrs(ss: seq<string>, rest: string)
    ensures ReadValue(TomlStrs(ss) + rest) == Got(Arr(StrItems(ss)), rest)
  {
    ReadStringItems(ss, rest);
    OpenText(Join(TomlStrParts(ss), ", "), rest);
    ReadBracketed(TomlStrs(ss) + rest, StrItems(ss), rest);
  }

  lemma OpenText(items: string, rest: string)
    ensures var text := ("[" + items + "]") + rest;
            text[0] == '[' && text[1..] == items + "]" + rest
  {
  }

  lemma ReadBracketed(text: string, items: seq<Value>, rest: string)
    requires text != "" && text[0] == '[' && ReadItems(text[1..]) == Got(items, rest)
    ensures ReadValue(text) == Got(Arr(items), rest)
  {
  }

  // ---- Keys ----

  predicate BareKey(k: string) { k != "" && AllBare(k) }

  lemma {:induction false} BareLengthAll(k: string, rest: string)
    requires AllBare(k)
    requires rest == "" || !IsBare(rest[0])
    ensures BareLength(k + rest) == |k|
  {
    if k == "" {
      assert k + rest == rest;
    } else {
      BareLengthAll(k[1..], rest);
      assert (k + rest)[1..] == k[1..] + rest;
    }
  }

  lemma ReadBareKeyText(k: string, rest: string)
    requires BareKey(k)
    requires rest == "" || !IsBare(rest[0])
    ensures ReadBareKey(k + rest) == Got(k, rest)
  {
    BareLengthAll(k, rest);
    assert (k + rest)[..|k|] == k && (k + rest)[|k|..] == rest;
  }

  lemma SkipNothing(s: string)
    requires s == "" || s[0] !in " \t\n"
    ensures SkipBlanks(s) == s && SkipLines(s) == s
  {
  }

  lemma SkipOne(s: string)
    ensures SkipBlanks(" " + s) == SkipBlanks(s) && SkipLines(" " + s) == SkipLines(s)
  {
    assert (" " + s)[1..] == s;
  }

  lemma ReadSingleKey(k: string, after: string)
    requires BareKey(k) && NoBlank(after) && !IsBare(after[0]) && after[0] != '.'
    ensures ReadKey(k + (" " + after)) == Got([k], after)
  {
    ReadBareKeyText(k, " " + after);
    SkipOne(after);
    SkipNothing(after);
  }

  lemma ReadDotted(k: string, more: string)
    requires BareKey(k) && NoBlank(more) && ReadKey(more).Got?
    ensures ReadKey(k + ("." + more)) == Got([k] + ReadKey(more).value, ReadKey(more).rest)
  {
    ReadBareKeyText(k, "." + more);
    SkipNothing("." + more);
    assert ("." + more)[1..] == more;
    SkipNothing(more);
  }

  lemma StartsWithKey(ks: seq<string>, rest: string)
    requires ks != [] && forall k :: k in ks ==> BareKey(k)
    ensures NoBlank(Join(ks, ".") + rest) && IsBare((Join(ks, ".") + rest)[0])
  {
    assert BareKey(ks[0]);
    assert (Join(ks, ".") + rest)[0] == ks[0][0];
  }

  /** A printed dotted key reads back, up to its equals sign. */
  lemma {:induction false} ReadPath(ks: seq<string>, rest: string)
    requires ks != [] && forall k :: k in ks ==> BareKey(k)
    ensures ReadKey(Join(ks, ".") + (" = " + rest)) == Got(ks, "= " + rest)
  {
    if |ks| == 1 {
      ReadOnlyKey(ks[0], rest);
      assert ks == [ks[0]];
    } else {
      ReadPath(ks[1..], rest);
      ReadPathStep(ks, " = " + rest, "= " + rest);
    }
  }

  lemma ReadPathStep(ks: seq<string>, text: string, after: string)
    requires |ks| > 1 && forall k :: k in ks ==> BareKey(k)
    requires ReadKey(Join(ks[1..], ".") + text) == Got(ks[1..], after)
    ensures ReadKey(Join(ks, ".") + text) == Got(ks, after)
  {
    StartsWithKey(ks[1..], text);
    ReadLongerPath(ks[0], Join(ks[1..], "."), text);
    assert ks == [ks[0]] + ks[1..];
  }

  lemma ReadLongerPath(k: string, path: string, rest: string)
    requires BareKey(k) && NoBlank(path + rest) && ReadKey(path + rest).Got?
    ensures ReadKey((k + "." + path) + rest) == Got([k] + ReadKey(path + rest).value, ReadKey(path + rest).rest)
  {
    DottedText(k, path, rest);
    ReadDotted(k, path + rest);
  }

  lemma ReadOnlyKey(k: string, rest: string)
    requires BareKey(k)
    ensures ReadKey(k + (" = " + rest)) == Got([k], "= " + rest)
  {
    assert " = " + rest == " " + ("= " + rest);
    ReadSingleKey(k, "= " + rest);
  }

  lemma DottedText(k: string, more: string, rest: string)
    ensures (k + "." + more) + rest == k + ("." + (more + rest))
  {
  }

  // ---- Inline tables ----

  predicate NoBlank(s: string) { s != "" && s[0] !in " \t\n" }

  /** A field: its key, its value, then whatever follows. */
  lemma ReadFieldText(key: string, text: string, v: Value, tail: string)
    requires BareKey(key) && NoBlank(text) && ReadValue(text + tail) == Got(v, tail)
    ensures ReadKey(Field(key, text) + tail) == Got([key], "= " + (text + tail))
    ensures ReadValue(SkipBlanks(("= " + (text + tail))[1..])) == Got(v, tail)
  {
    ReadOnlyKey(key, text + tail);
    FieldText(key, text, tail);
    AfterEquals(text + tail);
  }

  lemma FieldText(key: string, text: string, tail: string)
    ensures Field(key, text) + tail == key + (" = " + (text + tail))
  {
  }

  lemma AfterEquals(right: string)
    requires NoBlank(right)
    ensures SkipBlanks(("= " + right)[1..]) == right
  {
    assert ("= " + right)[1..] == " " + right;
    SkipOne(right);
    SkipNothing(right);
  }

  /** One step of the field reader, and its last one. */
  lemma FieldEnds(s: string, m: Entries, key: string, equals: string, v: Value, after: string)
    requires ReadKey(s) == Got([key], equals) && equals != "" && equals[0] == '='
    requires ReadValue(SkipBlanks(equals[1..])) == Got(v, after) && key !in m
    requires SkipBlanks(after) != "" && SkipBlanks(after)[0] == '}'
    ensures ReadFields(s, m) == Got(m[key := v], SkipBlanks(after)[1..])
  {
    InsertKey(m, key, v);
  }

  lemma FieldContinues(s: string, m: Entries, key: string, equals: string, v: Value, after: string)
    requires ReadKey(s) == Got([key], equals) && equals != "" && equals[0] == '='
    requires ReadValue(SkipBlanks(equals[1..])) == Got(v, after) && key !in m
    requires SkipBlanks(after) != "" && SkipBlanks(after)[0] == ','
    ensures ReadFields(s, m) == ReadFields(SkipBlanks(SkipBlanks(after)[1..]), m[key := v])
  {
    InsertKey(m, key, v);
  }

  lemma InsertKey(m: Entries, key: string, v: Value)
    requires key !in m
    ensures Insert(m, [key], v) == Some(m[key := v])
  {
  }

  lemma ReadLastField(key: string, text: string, v: Value, m: Entries, rest: string)
    requires BareKey(key) && key !in m && NoBlank(text)
    requires ReadValue(text + (" }" + rest)) == Got(v, " }" + rest)
    ensures ReadFields(Field(key, text) + (" }" + rest), m) == Got(m[key := v], rest)
  {
    var after := " }" + rest;
    ReadFieldText(key, text, v, after);
    ClosingBrace(rest);
    FieldEnds(Field(key, text) + after, m, key, "= " + (text + after), v, after);
  }

  lemma ClosingBrace(rest: string)
    ensures var after := SkipBlanks(" }" + rest);
            after != "" && after[0] == '}' && after[1..] == rest
  {
    assert " }" + rest == " " + ("}" + rest);
    SkipOne("}" + rest);
    SkipNothing("}" + rest);
    assert ("}" + rest)[1..] == rest;
  }

  lemma CommaBlank(more: string)
    requires NoBlank(more)
    ensures SkipBlanks(", " + more) == ", " + more && SkipBlanks((", " + more)[1..]) == more
  {
    SkipNothing(", " + more);
    assert (", " + more)[1..] == " " + more;
    SkipOne(more);
    SkipNothing(more);
  }

  lemma ReadMoreFields(key: string, text: string, v: Value, m: Entries, more: string)
    requires BareKey(key) && key !in m && NoBlank(text) && NoBlank(more)
    requires ReadValue(text + (", " + more)) == Got(v, ", " + more)
    ensures ReadFields(Field(key, text) + (", " + more), m) == ReadFields(more, m[key := v])
  {
    var after := ", " + more;
    ReadFieldText(key, text, v, after);
    CommaBlank(more);
    FieldContinues(Field(key, text) + after, m, key, "= " + (text + after), v, after);
  }

  lemma FieldStarts(key: string, text: string, rest: string)
    requires BareKey(key)
    ensures NoBlank(Field(key, text) + rest) && (Field(key, text) + rest)[0] != '}'
  {
    assert (Field(key, text) + rest)[0] == key[0];
  }

  lemma OpenTable(s: string, m: Entries, rest: string)
    requires s != "" && s[0] == '{'
    requires var body := SkipBlanks(s[1..]);
             body != "" && body[0] != '}' && ReadFields(body, map[]) == Got(m, rest)
    ensures ReadValue(s) == Got(Table(m, true), rest)
  {
  }

  lemma OpenBody(body: string)
    requires NoBlank(body)
    ensures ("{ " + body)[0] == '{' && SkipBlanks(("{ " + body)[1..]) == body
  {
    assert ("{ " + body)[1..] == " " + body;
    SkipOne(body);
    SkipNothing(body);
  }

  lemma ReadOpenTable(body: string, m: Entries, rest: string)
    requires NoBlank(body) && body[0] != '}' && ReadFields(body, map[]) == Got(m, rest)
    ensures ReadValue("{ " + body) == Got(Table(m, true), rest)
  {
    OpenBody(body);
    OpenTable("{ " + body, m, rest);
  }

  lemma ReadTable1(kind: string, rest: string)
    ensures ReadValue(InlineTable([TypeField(kind)]) + rest) == Got(Object(map["type" := Str(kind)]), rest)
  {
    var tail := " }" + rest;
    ReadTomlStr(kind, tail);
    ReadLastField("type", TomlStr(kind), Str(kind), map[], rest);
    FieldStarts("type", TomlStr(kind), tail);
    ReadOpenTable(TypeField(kind) + tail, map["type" := Str(kind)], rest);
    TableText1(TypeField(kind), rest);
  }

  /** A table that opens with its type, given how its remaining fields read. */
  lemma ReadTypedTable(kind: string, more: string, m: Entries, rest: string)
    requires NoBlank(more) && ReadFields(more, map["type" := Str(kind)]) == Got(m, rest)
    ensures ReadValue("{ " + (TypeField(kind) + (", " + more))) == Got(Table(m, true), rest)
  {
    assert BareKey("type");
    ReadTypeFirst("type", kind, more, m, rest);
  }

  lemma ReadTypeFirst(key: string, kind: string, more: string, m: Entries, rest: string)
    requires BareKey(key) && NoBlank(more) && ReadFields(more, map[key := Str(kind)]) == Got(m, rest)
    ensures ReadValue("{ " + (Field(key, TomlStr(kind)) + (", " + more))) == Got(Table(m, true), rest)
  {
    ReadTomlStr(kind, ", " + more);
    ReadFirstField(key, TomlStr(kind), Str(kind), more, m, rest);
  }

  lemma ReadFirstField(key: string, text: string, v: Value, more: string, m: Entries, rest: string)
    requires BareKey(key) && NoBlank(text) && NoBlank(more)
    requires ReadValue(text + (", " + more)) == Got(v, ", " + more)
    requires ReadFields(more, map[key := v]) == Got(m, rest)
    ensures ReadValue("{ " + (Field(key, text) + (", " + more))) == Got(Table(m, true), rest)
  {
    ReadMoreFields(key, text, v, map[], more);
    FieldStarts(key, text, ", " + more);
    ReadOpenTable(Field(key, text) + (", " + more), m, rest);
  }

  lemma ReadTable2(kind: string, key: string, text: string, v: Value, rest: string)
    requires BareKey(key) && key != "type" && NoBlank(text)
    requires ReadValue(text + (" }" + rest)) == Got(v, " }" + rest)
    ensures ReadValue(InlineTable([TypeField(kind), Field(key, text)]) + rest)
         == Got(Object(map["type" := Str(kind), key := v]), rest)
  {
    var m := map["type" := Str(kind)];
    var more := Field(key, text) + (" }" + rest);
    ReadLastField(key, text, v, m, rest);
    FieldStarts(key, text, " }" + rest);
    ReadTypedTable(kind, more, m[key := v], rest);
    TableText2(TypeField(kind), Field(key, text), rest);
  }

  lemma TableText1(f: string, rest: string)
    ensures InlineTable([f]) + rest == "{ " + (f + (" }" + rest))
  {
    assert Join([f], ", ") == f;
  }

  lemma TableText2(f: string, g: string, rest: string)
    ensures InlineTable([f, g]) + rest == "{ " + (f + (", " + (g + (" }" + rest))))
  {
    assert [f, g][1..] == [g];
    assert Join([f, g], ", ") == f + ", " + g;
  }

  lemma ReadTable3(
      kind: string, key: string, text: string, v: Value, key2: string, text2: string, v2: Value, rest: string)
    requires BareKey(key) && key != "type" && NoBlank(text)
    requires BareKey(key2) && key2 != "type" && key2 != key && NoBlank(text2)
    requires var tail := ", " + (Field(key2, text2) + (" }" + rest));
             ReadValue(text + tail) == Got(v, tail)
    requires ReadValue(text2 + (" }" + rest)) == Got(v2, " }" + rest)
    ensures ReadValue(InlineTable([TypeField(kind), Field(key, text), Field(key2, text2)]) + rest)
         == Got(Object(map["type" := Str(kind), key := v, key2 := v2]), rest)
  {
    var m := map["type" := Str(kind)];
    var last := Field(key2, text2) + (" }" + rest);
    var more := Field(key, text) + (", " + last);
    ReadLastField(key2, text2, v2, m[key := v], rest);
    FieldStarts(key2, text2, " }" + rest);
    ReadMoreFields(key, text, v, m, last);
    FieldStarts(key, text, ", " + last);
    ReadTypedTable(kind, more, m[key := v][key2 := v2], rest);
    TableText3(TypeField(kind), Field(key, text), Field(key2, text2), rest);
  }

  lemma TableText3(f: string, g: string, h: string, rest: string)
    ensures InlineTable([f, g, h]) + rest == "{ " + (f + (", " + (g + (", " + (h + (" }" + rest))))))
  {
    assert [f, g, h][1..] == [g, h] && [g, h][1..] == [h];
    assert Join([g, h], ", ") == g + ", " + h;
    assert Join([f, g, h], ", ") == f + ", " + (g + ", " + h);
  }

  // ---- Actions ----

  lemma {:induction false} SkipIndent(n: nat, s: string)
    ensures SkipLines(Indent(n) + s) == SkipLines(s)
  {
    if n == 0 {
      assert Indent(n) + s == s;
    } else {
      var t := Indent(n - 1) + s;
      assert Indent(n) + s == " " + (" " + (" " + (" " + t)));
      SkipOne(" " + (" " + (" " + t)));
      SkipOne(" " + (" " + t));
      SkipOne(" " + t);
      SkipOne(t);
      SkipIndent(n - 1, s);
    }
  }

  lemma SkipNewline(s: string)
    ensures SkipLines("\n" + s) == SkipLines(s)
  {
    assert ("\n" + s)[1..] == s;
  }

  lemma FieldNames()
    ensures BareKey("keys") && BareKey("value") && BareKey("argv") && BareKey("timeout_seconds")
    ensures BareKey("milliseconds") && BareKey("steps") && BareKey("message") && BareKey("layer") && BareKey("profile")
  {
  }

  lemma ReadOneString(kind: string, key: string, value: string, rest: string)
    requires BareKey(key) && key != "type"
    ensures ReadValue(InlineTable([TypeField(kind), Field(key, TomlStr(value))]) + rest)
         == Got(Object(map["type" := Str(kind), key := Str(value)]), rest)
  {
    ReadTomlStr(value, " }" + rest);
    ReadTable2(kind, key, TomlStr(value), Str(value), rest);
  }

  lemma ReadOneList(kind: string, key: string, ss: seq<string>, rest: string)
    requires BareKey(key) && key != "type"
    ensures ReadValue(InlineTable([TypeField(kind), Field(key, TomlStrs(ss))]) + rest)
         == Got(Object(map["type" := Str(kind), key := Arr(StrItems(ss))]), rest)
  {
    ReadTomlStrs(ss, " }" + rest);
    ReadTable2(kind, key, TomlStrs(ss), Arr(StrItems(ss)), rest);
  }

  lemma ReadOneInt(kind: string, key: string, n: int, rest: string)
    requires BareKey(key) && key != "type"
    ensures ReadValue(InlineTable([TypeField(kind), Field(key, IntText(n))]) + rest)
         == Got(Object(map["type" := Str(kind), key := Int(n)]), rest)
  {
    ReadIntText(n, " }" + rest);
    IntTextStarts(n);
    ReadTable2(kind, key, IntText(n), Int(n), rest);
  }

  lemma IntTextStarts(n: int)
    ensures NoBlank(IntText(n))
  {
  }

  lemma ReadTimedCommand(argv: seq<string>, t: int, rest: string)
    requires BareKey("argv") && BareKey("timeout_seconds")
    ensures ReadValue(InlineTable([TypeField("command"), Field("argv", TomlStrs(argv)),
                                   Field("timeout_seconds", IntText(t))]) + rest)
         == Got(Object(map["type" := Str("command"), "argv" := Arr(StrItems(argv)), "timeout_seconds" := Int(t)]), rest)
  {
    var tail := " }" + rest;
    ReadIntText(t, tail);
    IntTextStarts(t);
    ReadTomlStrs(argv, ", " + (Field("timeout_seconds", IntText(t)) + tail));
    ReadTable3("command", "argv", TomlStrs(argv), Arr(StrItems(argv)), "timeout_seconds", IntText(t), Int(t), rest);
  }

  predicate ReadsBack(indent: nat, a: Action, rest: string) {
    ReadValue(EmitAction(indent, a) + rest) == Got(ActionToSpec(a), rest)
  }

  function KindOf(a: Action): string {
    match a
    case Hotkey(_) => "hotkey"
    case Text(_) => "text"
    case Command(_, _) => "command"
    case Delay(_) => "delay"
    case Macro(_) => "macro"
    case NoOp => "noop"
    case DebugLog(_) => "debug_log"
    case SetLayer(_) => "set_layer"
    case NextLayer => "next_layer"
    case PreviousLayer => "previous_layer"
    case SetProfile(_) => "set_profile"
  }

  predicate IsBareAction(a: Action) { a.NoOp? || a.NextLayer? || a.PreviousLayer? }

  lemma BareFields(indent: nat, a: Action)
    requires IsBareAction(a)
    ensures ActionFields(indent, a) == [TypeField(KindOf(a))]
    ensures ActionToSpec(a) == Object(map["type" := Str(KindOf(a))])
  {
  }

  lemma ReadBareAction(indent: nat, a: Action, rest: string)
    requires IsBareAction(a)
    ensures ReadsBack(indent, a, rest)
  {
    BareFields(indent, a);
    ReadTable1(KindOf(a), rest);
  }

  predicate IsStringAction(a: Action) { a.Text? || a.DebugLog? || a.SetLayer? || a.SetProfile? }

  /** The field and the value of an action that holds one string. */
  function StringKey(a: Action): string
    requires IsStringAction(a)
  {
    match a case Text(_) => "value" case DebugLog(_) => "message" case SetLayer(_) => "layer" case SetProfile(_) => "profile"
  }

  function StringOf(a: Action): string
    requires IsStringAction(a)
  {
    match a case Text(s) => s case DebugLog(s) => s case SetLayer(s) => s case SetProfile(s) => s
  }

  lemma StringFields(indent: nat, a: Action)
    requires IsStringAction(a)
    ensures ActionFields(indent, a) == [TypeField(KindOf(a)), Field(StringKey(a), TomlStr(StringOf(a)))]
  {
  }

  lemma StringSpec(a: Action)
    requires IsStringAction(a)
    ensures ActionToSpec(a) == Object(map["type" := Str(KindOf(a)), StringKey(a) := Str(StringOf(a))])
  {
  }

  lemma ReadStringAction(indent: nat, a: Action, rest: string)
    requires IsStringAction(a)
    ensures ReadsBack(indent, a, rest)
  {
    assert BareKey(StringKey(a)) by { FieldNames(); }
    StringFields(indent, a);
    StringSpec(a);
    ReadOneString(KindOf(a), StringKey(a), StringOf(a), rest);
  }

  lemma ReadCommandAction(indent: nat, argv: seq<string>, timeout: Option<int>, rest: string)
    ensures ReadsBack(indent, Command(argv, timeout), rest)
  {
    FieldNames();
    var fields := [TypeField("command"), Field("argv", TomlStrs(argv))];
    if timeout.Some? && timeout.value != 0 {
      ReadTimedCommand(argv, timeout.value, rest);
      assert fields + TimeoutFields(timeout) == [fields[0], fields[1], Field("timeout_seconds", IntText(timeout.value))];
    } else {
      ReadOneList("command", "argv", argv, rest);
      assert fields + [] == fields;
    }
  }

  /** Every printed action reads back as its spec, whatever follows it. */
  lemma {:induction false} ReadAction(indent: nat, a: Action, rest: string)
    ensures ReadsBack(indent, a, rest)
    decreases a, 2
  {
    FieldNames();
    match a {
      case Hotkey(keys) => ReadOneList("hotkey", "keys", keys, rest);
      case Command(argv, timeout) => ReadCommandAction(indent, argv, timeout, rest);
      case Delay(ms) => ReadOneInt("delay", "milliseconds", ms, rest);
      case Macro(steps) =>
        ReadSteps(indent, steps, " }" + rest);
        ReadTable2("macro", "steps", EmitSteps(indent, steps), Arr(StepSpecs(steps)), rest);
      case NoOp => ReadBareAction(indent, a, rest);
      case NextLayer => ReadBareAction(indent, a, rest);
      case PreviousLayer => ReadBareAction(indent, a, rest);
      case _ => ReadStringAction(indent, a, rest);
    }
  }

  lemma ActionStarts(indent: nat, a: Action, rest: string)
    ensures StartsValue(EmitAction(indent, a) + rest)
  {
    TableStarts(ActionFields(indent, a), rest);
  }

  lemma TableStarts(fields: seq<string>, rest: string)
    ensures StartsValue(InlineTable(fields) + rest)
  {
    assert (InlineTable(fields) + rest)[0] == '{';
  }

  // ---- Macro steps ----

  /** What follows the last step: the closing line of the array. */
  function Closing(indent: nat, rest: string): string { "\n" + (Indent(indent + 1) + ("]" + rest)) }

  lemma SkipClosing(indent: nat, rest: string)
    ensures SkipLines(Closing(indent, rest)) == "]" + rest
  {
    SkipNewline(Indent(indent + 1) + ("]" + rest));
    SkipIndent(indent + 1, "]" + rest);
    SkipNothing("]" + rest);
  }

  lemma ReadBroken(more: string)
    ensures ReadItems("\n" + more) == ReadItems(more)
  {
    SkipNewline(more);
  }

  lemma ReadIndented(n: nat, s: string)
    ensures ReadItems(Indent(n) + s) == ReadItems(s)
  {
    SkipIndent(n, s);
  }

  lemma ReadNoItems(s: string, rest: string)
    requires SkipLines(s) == "]" + rest
    ensures ReadItems(s) == Got([], rest)
  {
    assert ("]" + rest)[1..] == rest;
  }

  /** The array of macro steps reads back in its multi-line layout. */
  lemma {:induction false} ReadSteps(indent: nat, steps: seq<Action>, rest: string)
    ensures ReadValue(EmitSteps(indent, steps) + rest) == Got(Arr(StepSpecs(steps)), rest)
    decreases steps, 1
  {
    var body := Join(EmitStepParts(indent, steps), ",\n") + Closing(indent, rest);
    ReadStepItems(indent, steps, rest);
    ReadBroken(body);
    ArrayText(Join(EmitStepParts(indent, steps), ",\n"), Indent(indent + 1), rest);
    assert ("[" + ("\n" + body))[1..] == "\n" + body;
    ReadBracketed("[" + ("\n" + body), StepSpecs(steps), rest);
  }

  lemma ArrayText(items: string, indent: string, rest: string)
    ensures ("[\n" + items + "\n" + indent + "]") + rest == "[" + ("\n" + (items + ("\n" + (indent + ("]" + rest)))))
  {
  }

  lemma {:induction false} ReadStepItems(indent: nat, steps: seq<Action>, rest: string)
    ensures ReadItems(Join(EmitStepParts(indent, steps), ",\n") + Closing(indent, rest)) == Got(StepSpecs(steps), rest)
    decreases steps, 0
  {
    var parts := EmitStepParts(indent, steps);
    var gap := Closing(indent, rest);
    SkipClosing(indent, rest);
    if steps == [] {
      assert Join(parts, ",\n") + gap == gap;
      ReadNoItems(gap, rest);
    } else if |steps| == 1 {
      ReadAction(indent + 2, steps[0], gap);
      ReadFinalStep(indent, steps[0], gap, rest);
      LastStepText(Indent(indent + 2), EmitAction(indent + 2, steps[0]), gap);
      assert steps[1..] == [] && StepSpecs(steps) == [ActionToSpec(steps[0])];
    } else {
      var more := Join(parts[1..], ",\n") + gap;
      ReadStepItems(indent, steps[1..], rest);
      assert parts[1..] == EmitStepParts(indent, steps[1..]);
      ReadAction(indent + 2, steps[0], "," + ("\n" + more));
      ReadAnotherStep(indent, steps[0], more);
      StepText(Indent(indent + 2), EmitAction(indent + 2, steps[0]), Join(parts[1..], ",\n"), gap);
    }
  }

  lemma StepText(indent: string, text: string, more: string, gap: string)
    ensures ((indent + text) + ",\n" + more) + gap == indent + (text + ("," + ("\n" + (more + gap))))
  {
  }

  lemma LastStepText(indent: string, text: string, gap: string)
    ensures (indent + text) + gap == indent + (text + gap)
  {
  }

  lemma ReadFinalStep(indent: nat, a: Action, gap: string, rest: string)
    requires ReadValue(EmitAction(indent + 2, a) + gap) == Got(ActionToSpec(a), gap)
    requires SkipLines(gap) == "]" + rest
    ensures ReadItems(Indent(indent + 2) + (EmitAction(indent + 2, a) + gap)) == Got([ActionToSpec(a)], rest)
  {
    ActionStarts(indent + 2, a, gap);
    ReadLastItem(EmitAction(indent + 2, a) + gap, ActionToSpec(a), gap, rest);
    ReadIndented(indent + 2, EmitAction(indent + 2, a) + gap);
  }

  lemma ReadAnotherStep(indent: nat, a: Action, more: string)
    requires ReadItems(more).Got?
    requires var after := "," + ("\n" + more);
             ReadValue(EmitAction(indent + 2, a) + after) == Got(ActionToSpec(a), after)
    ensures ReadItems(Indent(indent + 2) + (EmitAction(indent + 2, a) + ("," + ("\n" + more))))
         == Got([ActionToSpec(a)] + ReadItems(more).value, ReadItems(more).rest)
  {
    var after := "," + ("\n" + more);
    assert after[1..] == "\n" + more;
    ReadBroken(more);
    ActionStarts(indent + 2, a, after);
    ReadMoreItems(EmitAction(indent + 2, a) + after, ActionToSpec(a), after);
    ReadIndented(indent + 2, EmitAction(indent + 2, a) + after);
  }

  // ---- Statements ----

  /** A printed statement stores its value under its key, or fails if it cannot be stored. */
  lemma ReadStatement(ks: seq<string>, text: string, v: Value, rest: string, m: Entries)
    requires ks != [] && forall k :: k in ks ==> BareKey(k)
    requires NoBlank(text) && ReadValue(text + ("\n" + rest)) == Got(v, "\n" + rest)
    ensures ReadDocument(Statement(ks, text) + rest, m)
         == (if Insert(m, ks, v).None? then None else ReadDocument(rest, Insert(m, ks, v).value))
  {
    var after := "\n" + rest;
    ReadPath(ks, text + after);
    StatementText(Join(ks, "."), text, rest);
    StartsWithKey(ks, " = " + (text + after));
    ReadAssignment(Statement(ks, text) + rest, ks, text + after, v, rest, m);
  }

  lemma StatementText(key: string, text: string, rest: string)
    ensures (key + " = " + text + "\n") + rest == key + (" = " + (text + ("\n" + rest)))
  {
  }

  lemma ReadAssignment(s: string, ks: seq<string>, right: string, v: Value, rest: string, m: Entries)
    requires NoBlank(s) && ReadKey(s) == Got(ks, "= " + right) && ks != []
    requires NoBlank(right) && ReadValue(right) == Got(v, "\n" + rest)
    ensures ReadDocument(s, m)
         == (if Insert(m, ks, v).None? then None else ReadDocument(rest, Insert(m, ks, v).value))
  {
    SkipNothing(s);
    AfterEquals(right);
    StatementStep(s, ks, "= " + right, v, "\n" + rest, m);
    assert ("\n" + rest)[1..] == rest;
  }

  /** One step of the document reader. */
  lemma StatementStep(s: string, ks: seq<string>, equals: string, v: Value, after: string, m: Entries)
    requires NoBlank(s) && SkipBlanks(s) == s && ReadKey(s) == Got(ks, equals) && ks != []
    requires equals != "" && equals[0] == '=' && ReadValue(SkipBlanks(equals[1..])) == Got(v, after)
    requires after != "" && after[0] == '\n'
    ensures ReadDocument(s, m)
         == (if Insert(m, ks, v).None? then None else ReadDocument(after[1..], Insert(m, ks, v).value))
  {
    assert SkipBlanks(after) == after;
  }

  lemma ReadBlankLine(rest: string, m: Entries)
    ensures ReadDocument("\n" + rest, m) == ReadDocument(rest, m)
  {
    assert SkipBlanks("\n" + rest) == "\n" + rest;
    assert ("\n" + rest)[1..] == rest;
  }
}
