/**
 * Python values as the integration receives them from the device's JSON, and
 * the Python coercions the entity code relies on: `bool(x)`, `str(x)`,
 * `str.lower()`, `str.strip()`, `int(s)`, `float(s)` and `dict.get`.
 */
module PyValue {

  datatype Option<+T> = None | Some(value: T)

  /** A JSON scalar as Python holds it after decoding. */
  datatype Value = VNone | VBool(b: bool) | VInt(i: int) | VStr(s: string)

  /** A decoded JSON object: the coordinator snapshot, a config entry's data or options. */
  type Dict = map<string, Value>

  /** `d.get(key)`: a missing key reads as None. */
  function Get(d: Dict, key: string): Value {
    if key in d then d[key] else VNone
  }

  /** `d.get(key, default)`: the default is used only when the key is absent. */
  function GetOr(d: Dict, key: string, default: Value): Value {
    if key in d then d[key] else default
  }

  /** `bool(v)` */
  predicate Truthy(v: Value) {
    match v
    case VNone => false
    case VBool(b) => b
    case VInt(i) => i != 0
    case VStr(s) => s != ""
  }

  /** `str(v)` */
  function Str(v: Value): string {
    match v
    case VNone => "None"
    case VBool(b) => if b then "True" else "False"
    case VInt(i) => IntToString(i)
    case VStr(s) => s
  }

  // ---------------------------------------------------------------- digits

  predicate IsDigit(c: char) { '0' <= c <= '9' }

  predicate AllDigits(s: string) {
    forall i :: 0 <= i < |s| ==> IsDigit(s[i])
  }

  function DigitChar(d: nat): char
    requires d < 10
  {
    (48 + d) as char
  }

  function DigitValue(c: char): nat
    requires IsDigit(c)
  {
    c as int - 48
  }

  /** Decimal text of a natural number, no leading zeros. */
  function NatToString(n: nat): string
    decreases n
  {
    if n < 10 then [DigitChar(n)] else NatToString(n / 10) + [DigitChar(n % 10)]
  }

  /** `str(i)` for an int. */
  function IntToString(i: int): string {
    if i < 0 then "-" + NatToString(-i) else NatToString(i)
  }

  /** The number a string of decimal digits denotes (0 for the empty string). */
  function DigitsValue(s: string): nat
    requires AllDigits(s)
    decreases |s|
  {
    if s == [] then 0 else DigitsValue(s[..|s| - 1]) * 10 + DigitValue(s[|s| - 1])
  }

  function Pow10(k: nat): nat
    ensures Pow10(k) >= 1
  {
    if k == 0 then 1 else 10 * Pow10(k - 1)
  }

  lemma {:induction false} NatToStringDigits(n: nat)
    ensures |NatToString(n)| > 0 && AllDigits(NatToString(n))
    ensures DigitsValue(NatToString(n)) == n
    decreases n
  {
    if n >= 10 {
      NatToStringDigits(n / 10);
      var s := NatToString(n);
      assert s == NatToString(n / 10) + [DigitChar(n % 10)];
      assert s[..|s| - 1] == NatToString(n / 10);
    }
  }

  lemma {:induction false} DigitsValueBelowPow10(s: string)
    requires AllDigits(s)
    ensures DigitsValue(s) < Pow10(|s|)
    decreases |s|
  {
    if s != [] {
      DigitsValueBelowPow10(s[..|s| - 1]);
    }
  }

  // ------------------------------------------------------------ whitespace

  /** The characters for which Python's `str.isspace()` holds. */
  const Whitespace: set<char> :=
    {'\t', '\n', '\U{0B}', '\U{0C}', '\r', '\U{1C}', '\U{1D}', '\U{1E}', '\U{1F}', ' ',
     '\U{85}', '\U{A0}', '\U{1680}', '\U{2000}', '\U{2001}', '\U{2002}', '\U{2003}',
     '\U{2004}', '\U{2005}', '\U{2006}', '\U{2007}', '\U{2008}', '\U{2009}', '\U{200A}',
     '\U{2028}', '\U{2029}', '\U{202F}', '\U{205F}', '\U{3000}'}

  predicate IsSpace(c: char) { c in Whitespace }

  function StripLeft(s: string): string
    decreases |s|
  {
    if |s| > 0 && IsSpace(s[0]) then StripLeft(s[1..]) else s
  }

  function StripRight(s: string): string
    decreases |s|
  {
    if |s| > 0 && IsSpace(s[|s| - 1]) then StripRight(s[..|s| - 1]) else s
  }

  /** `s.strip()` */
  function Strip(s: string): string {
    StripRight(StripLeft(s))
  }

  lemma StripIdle(s: string)
    requires s == [] || (!IsSpace(s[0]) && !IsSpace(s[|s| - 1]))
    ensures Strip(s) == s
  {
  }

  // ------------------------------------------------------------- lowercase

  /** `str.lower()` on one character: ASCII letters only. */
  function LowerChar(c: char): char {
    if 'A' <= c <= 'Z' then (c as int + 32) as char else c
  }

  /** `s.lower()` */
  function Lower(s: string): (r: string)
    ensures |r| == |s|
    ensures forall i :: 0 <= i < |s| ==> r[i] == LowerChar(s[i])
  {
    seq(|s|, i requires 0 <= i < |s| => LowerChar(s[i]))
  }

  predicate NoUpper(s: string) {
    forall i :: 0 <= i < |s| ==> !('A' <= s[i] <= 'Z')
  }

  /** Lower-casing text without upper-case letters changes nothing. */
  lemma LowerIdle(s: string)
    requires NoUpper(s)
    ensures Lower(s) == s
  {
    assert forall i :: 0 <= i < |s| ==> Lower(s)[i] == s[i];
  }

  /** Lower-casing leaves no upper-case letter behind and is idempotent. */
  lemma LowerIsLower(s: string)
    ensures NoUpper(Lower(s))
    ensures Lower(Lower(s)) == Lower(s)
  {
  }

  // ------------------------------------------------------- split and join

  /** `s.split(c)`: always at least one part; no part contains `c`. */
  function Split(s: string, c: char): (parts: seq<string>)
    ensures |parts| >= 1
    decreases |s|
  {
    if s == [] then [[]]
    else
      var rest := Split(s[1..], c);
      if s[0] == c then [[]] + rest else [[s[0]] + rest[0]] + rest[1..]
  }

  /** `c.join(parts)` for a non-empty list of parts. */
  function Join(parts: seq<string>, c: char): string
    requires |parts| >= 1
    decreases |parts|
  {
    if |parts| == 1 then parts[0] else parts[0] + [c] + Join(parts[1..], c)
  }

  lemma {:induction false} SplitFree(s: string, c: char)
    requires c !in s
    ensures Split(s, c) == [s]
    decreases |s|
  {
    if s != [] {
      assert c !in s[1..] by {
        forall k | 0 <= k < |s[1..]| ensures s[1..][k] != c {
          assert s[1..][k] == s[k + 1];
        }
      }
      SplitFree(s[1..], c);
      assert [s[0]] + s[1..] == s;
    }
  }

  lemma {:induction false} SplitAppend(a: string, c: char, b: string)
    requires c !in a
    ensures Split(a + [c] + b, c) == [a] + Split(b, c)
    decreases |a|
  {
    if a == [] {
      assert a + [c] + b == [c] + b;
      assert ([c] + b)[1..] == b;
    } else {
      SplitAppend(a[1..], c, b);
      assert (a + [c] + b)[1..] == a[1..] + [c] + b;
      assert [a[0]] + a[1..] == a;
    }
  }

  /** Splitting undoes joining when no part contains the separator. */
  lemma {:induction false} SplitJoin(parts: seq<string>, c: char)
    requires |parts| >= 1
    requires forall i :: 0 <= i < |parts| ==> c !in parts[i]
    ensures Split(Join(parts, c), c) == parts
    decreases |parts|
  {
    if |parts| == 1 {
      SplitFree(parts[0], c);
    } else {
      SplitJoin(parts[1..], c);
      SplitAppend(parts[0], c, Join(parts[1..], c));
    }
  }

  /** Joining undoes splitting, and the parts never contain the separator. */
  lemma {:induction false} JoinSplit(s: string, c: char)
    ensures Join(Split(s, c), c) == s
    ensures forall i :: 0 <= i < |Split(s, c)| ==> c !in Split(s, c)[i]
    decreases |s|
  {
    if s != [] {
      JoinSplit(s[1..], c);
      var rest := Split(s[1..], c);
      if s[0] != c {
        var parts := [[s[0]] + rest[0]] + rest[1..];
        assert parts[1..] == rest[1..];
        if |rest| > 1 {
          assert rest == [rest[0]] + rest[1..];
          assert Join(rest, c) == rest[0] + [c] + Join(rest[1..], c);
        }
        assert forall i :: 1 <= i < |parts| ==> parts[i] == rest[i];
      } else {
        assert ([[]] + rest)[1..] == rest;
      }
    }
  }

  /** `sep.join(parts)` for any list, with a string separator. */
  function JoinWith(parts: seq<string>, sep: string): string
    decreases |parts|
  {
    if parts == [] then ""
    else if |parts| == 1 then parts[0]
    else parts[0] + sep + JoinWith(parts[1..], sep)
  }

  /** `needle in haystack` for strings. */
  predicate Contains(haystack: string, needle: string)
    decreases |haystack|
  {
    if |haystack| < |needle| then false
    else haystack[..|needle|] == needle || (|haystack| > 0 && Contains(haystack[1..], needle))
  }

  ghost predicate OccursAt(haystack: string, needle: string, i: int) {
    0 <= i <= |haystack| - |needle| && haystack[i..i + |needle|] == needle
  }

  /** Contains finds an occurrence exactly when there is one. */
  lemma {:induction false} ContainsMeansOccurs(haystack: string, needle: string)
    ensures Contains(haystack, needle) <==> exists i :: OccursAt(haystack, needle, i)
    decreases |haystack|
  {
    if |haystack| >= |needle| {
      if haystack[..|needle|] == needle {
        assert OccursAt(haystack, needle, 0);
      } else if |haystack| > 0 {
        ContainsMeansOccurs(haystack[1..], needle);
        if Contains(haystack[1..], needle) {
          var i :| OccursAt(haystack[1..], needle, i);
          assert haystack[i + 1..i + 1 + |needle|] == haystack[1..][i..i + |needle|];
          assert OccursAt(haystack, needle, i + 1);
        }
        if exists i :: OccursAt(haystack, needle, i) {
          var i :| OccursAt(haystack, needle, i);
          assert i != 0;
          assert haystack[1..][i - 1..i - 1 + |needle|] == haystack[i..i + |needle|];
          assert OccursAt(haystack[1..], needle, i - 1);
        }
      }
    }
  }

  // ------------------------------------------------------------ int(s)

  /** An optional leading sign, as `int()` and `float()` accept it. */
  function SplitSign(t: string): (bool, string) {
    if |t| > 0 && (t[0] == '-' || t[0] == '+') then (t[0] == '-', t[1..]) else (false, t)
  }

  /** `int(s)` on a string: surrounding whitespace, an optional sign, decimal digits. */
  function ParseInt(s: string): Option<int> {
    var (negative, digits) := SplitSign(Strip(s));
    if |digits| > 0 && AllDigits(digits) then
      var magnitude: int := DigitsValue(digits);
      Some(if negative then -magnitude else magnitude)
    else None
  }

  /** `int(str(i)) == i` */
  lemma ParseIntOfIntToString(i: int)
    ensures ParseInt(IntToString(i)) == Some(i)
  {
    var n: nat := if i < 0 then -i else i;
    NatToStringDigits(n);
    var s := IntToString(i);
    StripIdle(s);
    if i < 0 {
      assert s[1..] == NatToString(n);
    }
  }

  /** `int(s)` raises on a word that starts with neither a sign nor a digit. */
  lemma ParseIntRejectsWord(s: string)
    requires |s| > 0 && !IsSpace(s[0]) && !IsSpace(s[|s| - 1])
    requires s[0] != '+' && s[0] != '-' && !IsDigit(s[0])
    ensures ParseInt(s) == None
  {
    StripIdle(s);
  }

  /** `int("true")`, `int("false")` and `int("None")` raise. */
  lemma ParseIntRejectsWords()
    ensures ParseInt("true") == None
    ensures ParseInt("false") == None
    ensures ParseInt("None") == None
  {
    var words := ["true", "false", "None"];
    forall k | 0 <= k < 3 ensures ParseInt(words[k]) == None {
      var w := words[k];
      assert !IsSpace(w[0]) && !IsSpace(w[|w| - 1]);
      ParseIntRejectsWord(w);
    }
    assert words[0] == "true" && words[1] == "false" && words[2] == "None";
  }

  /** `str(i)` is a non-empty run of digits, after a minus sign when `i` is negative. */
  lemma IntToStringPlain(i: int)
    ensures var s := IntToString(i);
            && |s| > 0
            && (forall k :: 0 <= k < |s| ==> IsDigit(s[k]) || (k == 0 && s[k] == '-'))
  {
    var n: nat := if i < 0 then -i else i;
    NatToStringDigits(n);
    if i < 0 {
      var s := IntToString(i);
      assert forall k :: 1 <= k < |s| ==> s[k] == NatToString(n)[k - 1];
    }
  }

  /** `str` on ints is injective. */
  lemma IntToStringInjective(a: int, b: int)
    requires IntToString(a) == IntToString(b)
    ensures a == b
  {
    ParseIntOfIntToString(a);
    ParseIntOfIntToString(b);
  }

  // ----------------------------------------------------------- float(s)

  /**
   * The exact value of a decimal literal: sign, whole part and a fraction
   * frac / scale (scale a power of ten, frac below it).
   */
  datatype Num = Num(negative: bool, whole: nat, frac: nat, scale: nat)

  ghost predicate ValidNum(n: Num) { 0 <= n.frac < n.scale }

  ghost function RealOf(n: Num): real
    requires ValidNum(n)
  {
    var magnitude := n.whole as real + n.frac as real / n.scale as real;
    if n.negative then -magnitude else magnitude
  }

  function NumOfInt(i: int): (n: Num)
    ensures ValidNum(n) && RealOf(n) == i as real
  {
    Num(i < 0, if i < 0 then -i else i, 0, 1)
  }

  /**
   * `float(s)` on a string: surrounding whitespace, an optional sign, and
   * digits with at most one decimal point and at least one digit.
   */
  function ParseFloat(s: string): (r: Option<Num>)
    ensures r.Some? ==> ValidNum(r.value)
  {
    var (negative, body) := SplitSign(Strip(s));
    var parts := Split(body, '.');
    if |parts| == 1 && |body| > 0 && AllDigits(body) then
      Some(Num(negative, DigitsValue(body), 0, 1))
    else if |parts| == 2 && AllDigits(parts[0]) && AllDigits(parts[1])
            && |parts[0]| + |parts[1]| > 0 then
      DigitsValueBelowPow10(parts[1]);
      Some(Num(negative, DigitsValue(parts[0]), DigitsValue(parts[1]), Pow10(|parts[1]|)))
    else None
  }

  /** `float(str(i))` is exactly `i`. */
  lemma ParseFloatOfIntToString(i: int)
    ensures ParseFloat(IntToString(i)) == Some(NumOfInt(i))
  {
    var n: nat := if i < 0 then -i else i;
    NatToStringDigits(n);
    var s := IntToString(i);
    StripIdle(s);
    var body := if i < 0 then s[1..] else s;
    assert body == NatToString(n);
    assert '.' !in body by {
      assert forall k :: 0 <= k < |body| ==> IsDigit(body[k]);
    }
    SplitFree(body, '.');
  }

  /** A word that starts with neither a sign, a digit nor a point is not a float literal. */
  lemma ParseFloatRejectsWord(s: string)
    requires |s| > 0 && !IsSpace(s[0]) && !IsSpace(s[|s| - 1]) && '.' !in s
    requires s[0] != '+' && s[0] != '-' && !IsDigit(s[0])
    ensures ParseFloat(s) == None
  {
    StripIdle(s);
    SplitFree(s, '.');
  }

  /** `float("None")`, `float("True")` and `float("False")` raise. */
  lemma ParseFloatRejectsKeywords()
    ensures ParseFloat("None") == None
    ensures ParseFloat("True") == None
    ensures ParseFloat("False") == None
  {
    var words := ["None", "True", "False"];
    forall k | 0 <= k < 3 ensures ParseFloat(words[k]) == None {
      var w := words[k];
      assert !IsSpace(w[0]) && !IsSpace(w[|w| - 1]);
      assert '.' !in w;
      ParseFloatRejectsWord(w);
    }
    assert words[0] == "None" && words[1] == "True" && words[2] == "False";
  }

  /** `int(x)` of a float: truncation toward zero. */
  function Truncate(n: Num): int {
    if n.negative then -(n.whole as int) else n.whole
  }

  /** The value of `n`, compared with an integer bound: `float_value <= t`. */
  predicate AtMost(n: Num, t: int) {
    if n.negative then n.whole >= -t
    else n.whole < t || (n.whole == t && n.frac == 0)
  }

  lemma RealFraction(frac: nat, scale: nat)
    requires frac < scale
    ensures 0.0 <= frac as real / scale as real < 1.0
    ensures frac > 0 ==> frac as real / scale as real > 0.0
  {
    var f := frac as real / scale as real;
    assert f * scale as real == frac as real;
  }

  /** AtMost is the real-number comparison it stands for. */
  lemma AtMostIsRealComparison(n: Num, t: int)
    requires ValidNum(n)
    ensures AtMost(n, t) <==> RealOf(n) <= t as real
  {
    RealFraction(n.frac, n.scale);
  }

  /** Truncation agrees with the exact value: the result is at most one unit closer to zero. */
  lemma TruncateIsTowardZero(n: Num)
    requires ValidNum(n)
    ensures !n.negative ==> Truncate(n) as real <= RealOf(n) < Truncate(n) as real + 1.0
    ensures n.negative ==> Truncate(n) as real - 1.0 < RealOf(n) <= Truncate(n) as real
  {
    RealFraction(n.frac, n.scale);
  }

  /** `float(v)`: None raises TypeError, a bool is 0 or 1. */
  function FloatOf(v: Value): (r: Option<Num>)
    ensures v.VInt? ==> r == Some(NumOfInt(v.i))
    ensures v.VNone? ==> r.None?
    ensures r.Some? ==> ValidNum(r.value)
  {
    match v
    case VNone => None
    case VBool(b) => Some(NumOfInt(if b then 1 else 0))
    case VInt(i) => Some(NumOfInt(i))
    case VStr(s) => ParseFloat(s)
  }

  /** `int(float(str(v)))`, None when it raises. */
  function IntOfFloatStr(v: Value): (r: Option<int>)
    ensures v.VInt? ==> r == Some(v.i)
    ensures v.VNone? || v.VBool? ==> r.None?
  {
    var parsed := ParseFloat(Str(v));
    assert v.VInt? ==> parsed == Some(NumOfInt(v.i)) by {
      if v.VInt? { ParseFloatOfIntToString(v.i); }
    }
    ParseFloatRejectsKeywords();
    match parsed
    case Some(n) => Some(Truncate(n))
    case None => None
  }
}
