/** Text helpers behind the canonical printer: decimal numerals, hex digits, joining, and
    sorting keys by code point. */
module Text {

  // ---- Decimal numerals ----

  predicate IsDigit(c: char) { '0' <= c <= '9' }

  function Digit(n: nat): (c: char)
    requires n < 10
    ensures IsDigit(c)
  {
    '0' + n as char
  }

  function DigitValue(c: char): nat
    requires IsDigit(c)
  {
    c as int - '0' as int
  }

  function Decimal(n: nat): (s: string)
    ensures s != ""
    ensures forall i :: 0 <= i < |s| ==> IsDigit(s[i])
    ensures s[0] == '0' ==> n == 0 && s == "0"
  {
    if n < 10 then [Digit(n)] else Decimal(n / 10) + [Digit(n % 10)]
  }

  function NumeralValue(s: string): nat
    requires forall i :: 0 <= i < |s| ==> IsDigit(s[i])
  {
    if s == "" then 0 else 10 * NumeralValue(s[..|s| - 1]) + DigitValue(s[|s| - 1])
  }

  /** A printed numeral denotes the number it was printed from. */
  lemma {:induction false} DecimalDenotes(n: nat)
    ensures NumeralValue(Decimal(n)) == n
  {
    if n < 10 {
      assert Decimal(n)[..0] == "";
    } else {
      DecimalDenotes(n / 10);
      var s := Decimal(n);
      assert s[..|s| - 1] == Decimal(n / 10);
    }
  }

  /** `str(n)` for a Python integer. */
  function IntText(n: int): string {
    if n < 0 then "-" + Decimal(-n) else Decimal(n)
  }

  // ---- Hex digits ----

  predicate IsHex(c: char) { IsDigit(c) || 'a' <= c <= 'f' || 'A' <= c <= 'F' }

  function HexDigit(n: nat): (c: char)
    requires n < 16
    ensures IsHex(c)
  {
    if n < 10 then '0' + n as char else 'a' + (n - 10) as char
  }

  function HexValue(c: char): (n: nat)
    requires IsHex(c)
    ensures n < 16
  {
    if IsDigit(c) then c as int - '0' as int
    else if 'a' <= c then c as int - 'a' as int + 10
    else c as int - 'A' as int + 10
  }

  // ---- Lists ----

  predicate Distinct<T(==)>(xs: seq<T>) { forall i, j :: 0 <= i < j < |xs| ==> xs[i] != xs[j] }

  /** The text has `s` from position `i` on. */
  predicate IsAt(text: string, i: nat, s: string) { i + |s| <= |text| && text[i..i + |s|] == s }

  // ---- Joining ----

  function Join(parts: seq<string>, sep: string): string {
    if parts == [] then ""
    else if |parts| == 1 then parts[0]
    else parts[0] + sep + Join(parts[1..], sep)
  }

  function ConcatMap<T>(xs: seq<string>, f: string -> seq<T>): seq<T> {
    if xs == [] then [] else f(xs[0]) + ConcatMap(xs[1..], f)
  }

  lemma ConcatMapHead<T>(xs: seq<string>, f: string -> seq<T>, rest: seq<T>)
    ensures xs == [] ==> ConcatMap(xs, f) + rest == rest
    ensures xs != [] ==> ConcatMap(xs, f) + rest == f(xs[0]) + (ConcatMap(xs[1..], f) + rest)
  {
  }

  /** A loop that appends one piece per element builds the concatenation. */
  lemma {:induction false} ConcatMapSnoc<T>(xs: seq<string>, f: string -> seq<T>, n: nat)
    requires n < |xs|
    ensures ConcatMap(xs[..n + 1], f) == ConcatMap(xs[..n], f) + f(xs[n])
  {
    if n == 0 {
      assert xs[..1][1..] == [] == xs[..0];
    } else {
      ConcatMapSnoc(xs[1..], f, n - 1);
      assert xs[..n + 1][1..] == xs[1..][..n];
      assert xs[..n][1..] == xs[1..][..n - 1];
      ConcatAssoc(f(xs[0]), ConcatMap(xs[1..][..n - 1], f), f(xs[n]));
    }
  }

  lemma ConcatAssoc<T>(a: seq<T>, b: seq<T>, c: seq<T>)
    ensures a + (b + c) == (a + b) + c
  {
  }

  // ---- Sorting by code point ----

  predicate LexLe(a: string, b: string) {
    a == "" || (b != "" && (a[0] < b[0] || (a[0] == b[0] && LexLe(a[1..], b[1..]))))
  }

  /** The two agree up to here, where the first is smaller. */
  predicate SmallerAt(a: string, b: string, k: nat) { k < |a| && k < |b| && a[..k] == b[..k] && a[k] < b[k] }

  lemma SmallerShift(a: string, b: string, k: nat)
    requires a != "" && b != "" && a[0] == b[0]
    ensures SmallerAt(a, b, k + 1) <==> SmallerAt(a[1..], b[1..], k)
  {
    if k + 1 <= |a| && k + 1 <= |b| {
      assert a[..k + 1] == [a[0]] + a[1..][..k] && b[..k + 1] == [b[0]] + b[1..][..k];
      assert a[..k + 1][1..] == a[1..][..k] && b[..k + 1][1..] == b[1..][..k];
    }
  }

  lemma PrefixShift(a: string, b: string)
    requires a != "" && b != "" && a[0] == b[0]
    ensures a <= b <==> a[1..] <= b[1..]
  {
    assert a == [a[0]] + a[1..] && b == [b[0]] + b[1..];
  }

  lemma SmallerFirst(a: string, b: string, k: nat)
    ensures SmallerAt(a, b, k) && k > 0 ==> a[0] == b[0]
  {
    if SmallerAt(a, b, k) && k > 0 { assert a[..k][0] == b[..k][0]; }
  }

  /** Code point order: a beginning comes first, and otherwise the first difference decides. */
  lemma {:induction false} LexLeMeans(a: string, b: string)
    ensures LexLe(a, b) <==> a <= b || exists k: nat :: SmallerAt(a, b, k)
  {
    if a != "" && b != "" {
      if a[0] == b[0] {
        LexLeMeans(a[1..], b[1..]);
        PrefixShift(a, b);
        forall k: nat ensures SmallerAt(a, b, k + 1) <==> SmallerAt(a[1..], b[1..], k) { SmallerShift(a, b, k); }
        if k: nat :| SmallerAt(a, b, k) {
          if k > 0 { assert SmallerAt(a[1..], b[1..], k - 1); }
        }
        if k: nat :| SmallerAt(a[1..], b[1..], k) { assert SmallerAt(a, b, k + 1); }
      } else {
        if k: nat :| SmallerAt(a, b, k) { SmallerFirst(a, b, k); }
        if a[0] < b[0] { assert SmallerAt(a, b, 0); }
      }
    }
  }

  lemma {:induction false} LexTotal(a: string, b: string)
    ensures LexLe(a, b) || LexLe(b, a)
    ensures LexLe(a, b) && LexLe(b, a) ==> a == b
  {
    if a != "" && b != "" && a[0] == b[0] {
      LexTotal(a[1..], b[1..]);
      assert a == [a[0]] + a[1..] && b == [b[0]] + b[1..];
    }
  }

  lemma {:induction false} LexTransitive(a: string, b: string, c: string)
    requires LexLe(a, b) && LexLe(b, c)
    ensures LexLe(a, c)
  {
    if a != "" && a[0] == b[0] && b[0] == c[0] {
      LexTransitive(a[1..], b[1..], c[1..]);
    }
  }

  predicate IsLeast(m: string, s: set<string>) {
    m in s && forall x :: x in s ==> LexLe(m, x)
  }

  lemma {:induction false} LeastExists(s: set<string>)
    requires s != {}
    ensures exists m :: IsLeast(m, s)
  {
    var x :| x in s;
    if s == {x} {
      LexTotal(x, x);
      assert IsLeast(x, s);
    } else {
      LeastExists(s - {x});
      var m :| IsLeast(m, s - {x});
      LexTotal(m, x);
      LexTotal(x, x);
      if LexLe(m, x) {
        assert IsLeast(m, s);
      } else {
        forall y | y in s ensures LexLe(x, y) {
          if y != x { LexTransitive(x, m, y); }
        }
        assert IsLeast(x, s);
      }
    }
  }

  function Least(s: set<string>): (m: string)
    requires s != {}
    ensures IsLeast(m, s)
  {
    LeastExists(s);
    assert forall a, b :: IsLeast(a, s) && IsLeast(b, s) ==> a == b by {
      forall a, b | IsLeast(a, s) && IsLeast(b, s) ensures a == b { LexTotal(a, b); }
    }
    var m :| IsLeast(m, s);
    m
  }

  /** `sorted(keys)`. */
  function Sorted(s: set<string>): (r: seq<string>)
    ensures forall x :: x in r <==> x in s
    decreases |s|
  {
    if s == {} then []
    else
      var m := Least(s);
      [m] + Sorted(s - {m})
  }

  /** The sorted list is strictly increasing in the code point order, so it has no duplicates. */
  lemma {:induction false} SortedIncreases(s: set<string>)
    ensures forall i, j :: 0 <= i < j < |Sorted(s)| ==>
              LexLe(Sorted(s)[i], Sorted(s)[j]) && Sorted(s)[i] != Sorted(s)[j]
    decreases |s|
  {
    if s != {} {
      var m := Least(s);
      SortedIncreases(s - {m});
      var rest := Sorted(s - {m});
      forall j | 0 <= j < |rest| ensures LexLe(m, rest[j]) && m != rest[j] {
        assert rest[j] in rest;
      }
      assert Sorted(s) == [m] + rest;
    }
  }
}
