/** The string primitives the cafeteria code borrows from Python: `str.strip()`,
    `str(int)`, zero-padded `strftime` fields and `sep.join(parts)`, each with
    the parser or law that undoes it. `s.split(sep)` is here only as the reader
    that undoes a join; the cafeteria code itself never splits. */
module Text {
  import opened Wrappers

  // ---------- Whitespace and str.strip() ----------

  /** The characters for which Python's `str.isspace()` holds. */
  const Blancos: set<char> := {
    '\t', '\n', '\U{0B}', '\U{0C}', '\r',            // \t \n \v \f \r
    '\U{1C}', '\U{1D}', '\U{1E}', '\U{1F}',             // file, group, record, unit separators
    ' ', '\U{85}', '\U{A0}', '\U{1680}',
    '\U{2000}', '\U{2001}', '\U{2002}', '\U{2003}', '\U{2004}', '\U{2005}',
    '\U{2006}', '\U{2007}', '\U{2008}', '\U{2009}', '\U{200A}',
    '\U{2028}', '\U{2029}', '\U{202F}', '\U{205F}', '\U{3000}'
  }

  predicate IsSpace(c: char) {
    c in Blancos
  }

  predicate AllSpace(s: string) {
    forall i :: 0 <= i < |s| ==> IsSpace(s[i])
  }

  /** No leading and no trailing whitespace. */
  predicate Stripped(s: string) {
    |s| > 0 ==> !IsSpace(s[0]) && !IsSpace(s[|s| - 1])
  }

  /** The first index at or after `i` that holds no whitespace, or `|s|`. */
  function SaltarBlancos(s: string, i: nat): (n: nat)
    requires i <= |s|
    ensures i <= n <= |s|
    ensures forall k :: i <= k < n ==> IsSpace(s[k])
    ensures n < |s| ==> !IsSpace(s[n])
    decreases |s| - i
  {
    if i < |s| && IsSpace(s[i]) then SaltarBlancos(s, i + 1) else i
  }

  /** The end of `s[a..j]` once its trailing whitespace is cut off. */
  function RecortarBlancos(s: string, a: nat, j: nat): (n: nat)
    requires a <= j <= |s|
    ensures a <= n <= j
    ensures forall k :: n <= k < j ==> IsSpace(s[k])
    ensures n > a ==> !IsSpace(s[n - 1])
    decreases j
  {
    if j > a && IsSpace(s[j - 1]) then RecortarBlancos(s, a, j - 1) else j
  }

  /** Python's `s.strip()`: the infix of `s` left once the whitespace on both
      ends is cut off. */
  function Strip(s: string): (r: string)
    ensures Stripped(r)
    ensures exists i :: 0 <= i <= |s| - |r| && r == s[i..i + |r|]
                        && AllSpace(s[..i]) && AllSpace(s[i + |r|..])
  {
    var a := SaltarBlancos(s, 0);
    var b := RecortarBlancos(s, a, |s|);
    var r := s[a..b];
    assert AllSpace(s[..a]) && AllSpace(s[b..]);
    assert r == s[a..a + |r|];
    r
  }

  lemma StripOfStripped(s: string)
    requires Stripped(s)
    ensures Strip(s) == s
  {
  }

  lemma StripIdempotent(s: string)
    ensures Strip(Strip(s)) == Strip(s)
  {
    StripOfStripped(Strip(s));
  }

  // ---------- Decimal digits ----------

  predicate IsDigit(c: char) {
    '0' <= c <= '9'
  }

  predicate AllDigits(s: string) {
    forall i :: 0 <= i < |s| ==> IsDigit(s[i])
  }

  function DigitValue(c: char): (d: nat)
    requires IsDigit(c)
    ensures d < 10
  {
    (c as int) - ('0' as int)
  }

  function DigitChar(d: nat): (c: char)
    requires d < 10
    ensures IsDigit(c) && DigitValue(c) == d
  {
    (d + '0' as int) as char
  }

  function Pow10(w: nat): (p: nat)
    ensures p >= 1
  {
    if w == 0 then 1 else 10 * Pow10(w - 1)
  }

  /** The number a string of decimal digits denotes, read most significant
      digit first; the empty string denotes 0. */
  function ParseNat(s: string): (n: nat)
    requires AllDigits(s)
    decreases |s|
  {
    if |s| == 0 then 0 else 10 * ParseNat(s[..|s| - 1]) + DigitValue(s[|s| - 1])
  }

  /** Python's `str(n)` for a natural number: no sign, no leading zero. */
  function Decimal(n: nat): (s: string)
    ensures |s| >= 1 && AllDigits(s)
    ensures s[0] == '0' ==> n == 0
    decreases n
  {
    if n < 10 then [DigitChar(n)] else Decimal(n / 10) + [DigitChar(n % 10)]
  }

  /** The last `w` decimal digits of `n`, zero-padded on the left: the
      `%Y` (w = 4) and `%m %d %H %M %S` (w = 2) fields of `strftime`. */
  function Fixed(n: nat, w: nat): (s: string)
    ensures |s| == w && AllDigits(s)
  {
    if w == 0 then "" else Fixed(n / 10, w - 1) + [DigitChar(n % 10)]
  }

  lemma {:induction false} ParseNatSnoc(s: string, c: char)
    requires AllDigits(s) && IsDigit(c)
    ensures AllDigits(s + [c])
    ensures ParseNat(s + [c]) == 10 * ParseNat(s) + DigitValue(c)
  {
    assert (s + [c])[..|s|] == s;
  }

  /** Reading back what `Decimal` wrote gives the number again. */
  lemma {:induction false} ParseDecimal(n: nat)
    ensures ParseNat(Decimal(n)) == n
    decreases n
  {
    if n >= 10 {
      ParseDecimal(n / 10);
      ParseNatSnoc(Decimal(n / 10), DigitChar(n % 10));
    }
  }

  /** A number with at most `w` digits survives the fixed-width field. */
  lemma {:induction false} ParseFixed(n: nat, w: nat)
    requires n < Pow10(w)
    ensures ParseNat(Fixed(n, w)) == n
  {
    if w > 0 {
      ParseFixed(n / 10, w - 1);
      ParseNatSnoc(Fixed(n / 10, w - 1), DigitChar(n % 10));
    }
  }

  /** A digit string is the fixed-width rendering of its own value. */
  lemma {:induction false} FixedOfParse(s: string)
    requires AllDigits(s)
    ensures Fixed(ParseNat(s), |s|) == s
    decreases |s|
  {
    if |s| > 0 {
      var p := s[..|s| - 1];
      FixedOfParse(p);
      var v := ParseNat(s);
      assert v / 10 == ParseNat(p) && v % 10 == DigitValue(s[|s| - 1]);
      assert s == p + [s[|s| - 1]];
    }
  }

  // ---------- Signed integers: str(int) and int(str) ----------

  /** Python's `str(i)` for an integer. */
  function IntDecimal(i: int): (s: string)
    ensures |s| >= 1
    ensures i < 0 <==> s[0] == '-'
    ensures i >= 0 ==> AllDigits(s)
    ensures i < 0 ==> AllDigits(s[1..])
  {
    if i < 0 then "-" + Decimal(-i) else Decimal(i)
  }

  /** Reads an optionally negative decimal numeral. */
  function ParseInt(s: string): Option<int> {
    if |s| >= 2 && s[0] == '-' && AllDigits(s[1..]) then Some(-(ParseNat(s[1..]) as int))
    else if |s| >= 1 && AllDigits(s) then Some(ParseNat(s))
    else None
  }

  lemma ParseIntDecimal(i: int)
    ensures ParseInt(IntDecimal(i)) == Some(i)
  {
    var s := IntDecimal(i);
    if i < 0 {
      var d := Decimal(-i);
      assert s == "-" + d;
      assert s[1..] == d;
      ParseDecimal(-i);
      assert |s| >= 2 && s[0] == '-' && AllDigits(s[1..]);
    } else {
      ParseDecimal(i);
      assert s == Decimal(i);
      assert s[0] != '-';
    }
  }

  // ---------- sep.join(parts) and s.split(sep) ----------

  /** Python's `sep.join(parts)` for a one-character separator. */
  function Join(parts: seq<string>, sep: char): (s: string)
    ensures |parts| == 1 ==> s == parts[0]
    decreases |parts|
  {
    if |parts| == 0 then ""
    else if |parts| == 1 then parts[0]
    else parts[0] + [sep] + Join(parts[1..], sep)
  }

  /** Python's `s.split(sep)` for a one-character separator: the pieces
      between consecutive separators, so never an empty list. */
  function Split(s: string, sep: char): (parts: seq<string>)
    ensures |parts| >= 1
    decreases |s|
  {
    if |s| == 0 then [""]
    else if s[0] == sep then [""] + Split(s[1..], sep)
    else
      var rest := Split(s[1..], sep);
      [[s[0]] + rest[0]] + rest[1..]
  }

  lemma {:induction false} SplitWithoutSeparator(s: string, sep: char)
    requires sep !in s
    ensures Split(s, sep) == [s]
    decreases |s|
  {
    if |s| > 0 {
      SplitWithoutSeparator(s[1..], sep);
      assert [s[0]] + s[1..] == s;
    }
  }

  lemma {:induction false} SplitAtFirstSeparator(a: string, sep: char, b: string)
    requires sep !in a
    ensures Split(a + [sep] + b, sep) == [a] + Split(b, sep)
    decreases |a|
  {
    var s := a + [sep] + b;
    if |a| == 0 {
      assert s[1..] == b;
    } else {
      assert s[1..] == a[1..] + [sep] + b;
      SplitAtFirstSeparator(a[1..], sep, b);
      assert [a[0]] + a[1..] == a;
    }
  }

  /** Splitting a join recovers the parts, as long as no part contains the
      separator. */
  lemma {:induction false} SplitJoin(parts: seq<string>, sep: char)
    requires |parts| >= 1
    requires forall i :: 0 <= i < |parts| ==> sep !in parts[i]
    ensures Split(Join(parts, sep), sep) == parts
    decreases |parts|
  {
    if |parts| == 1 {
      SplitWithoutSeparator(parts[0], sep);
    } else {
      SplitJoin(parts[1..], sep);
      SplitAtFirstSeparator(parts[0], sep, Join(parts[1..], sep));
      assert [parts[0]] + parts[1..] == parts;
    }
  }

  // ---------- Sequences without repeats ----------

  predicate Distinct<T(==)>(s: seq<T>) {
    forall i, j :: 0 <= i < j < |s| ==> s[i] != s[j]
  }

  /** A sequence without repeats has as many elements as its set. */
  lemma {:induction false} DistinctCardinality<T>(s: seq<T>)
    requires Distinct(s)
    ensures |set x | x in s| == |s|
    decreases |s|
  {
    if |s| > 0 {
      var p := s[..|s| - 1];
      DistinctCardinality(p);
      assert (set x | x in s) == (set x | x in p) + {s[|s| - 1]};
      assert s[|s| - 1] !in p;
    }
  }
}
