/** The few JavaScript string operations the source relies on: `trim`,
    `split` and `join` on one separator character, `toLowerCase` (ASCII
    letters), number-to-string conversion in template literals, `parseInt`
    and `Number`. */
module Text {
  import opened Wrappers

  /** The characters `String.prototype.trim` removes: JavaScript's WhiteSpace
      and LineTerminator code points. */
  predicate IsWhite(c: char) {
    var n := c as int;
    n == 0x09 || n == 0x0A || n == 0x0B || n == 0x0C || n == 0x0D || n == 0x20
    || n == 0xA0 || n == 0x1680 || (0x2000 <= n <= 0x200A) || n == 0x2028
    || n == 0x2029 || n == 0x202F || n == 0x205F || n == 0x3000 || n == 0xFEFF
  }

  /** True when `s` neither begins nor ends with white space. */
  predicate Trimmed(s: string) {
    s == [] || (!IsWhite(s[0]) && !IsWhite(s[|s| - 1]))
  }

  /** `s` without its leading white space. */
  function TrimStart(s: string): (r: string)
    ensures |r| <= |s| && r == s[|s| - |r|..]
    ensures r == [] || !IsWhite(r[0])
    ensures forall i :: 0 <= i < |s| - |r| ==> IsWhite(s[i])
  {
    if s == [] || !IsWhite(s[0]) then s else TrimStart(s[1..])
  }

  /** `s` without its trailing white space. */
  function TrimEnd(s: string): (r: string)
    ensures |r| <= |s| && r == s[..|r|]
    ensures r == [] || !IsWhite(r[|r| - 1])
    ensures forall i :: |r| <= i < |s| ==> IsWhite(s[i])
  {
    if s == [] || !IsWhite(s[|s| - 1]) then s else TrimEnd(s[..|s| - 1])
  }

  /** `String.prototype.trim`: the result has no white space at either end,
      and a string that has none is returned unchanged. */
  function Trim(s: string): (r: string)
    ensures |r| <= |s|
    ensures Trimmed(r)
    ensures Trimmed(s) ==> r == s
  {
    var t := TrimStart(s);
    var r := TrimEnd(t);
    assert r != [] ==> r[0] == t[0];
    r
  }

  /** Trimming keeps a contiguous window of `s` with only white space
      outside it. */
  lemma TrimWindow(s: string)
    ensures exists a, b ::
              && 0 <= a <= b <= |s| && Trim(s) == s[a..b]
              && (forall i :: 0 <= i < a ==> IsWhite(s[i]))
              && (forall i :: b <= i < |s| ==> IsWhite(s[i]))
  {
    var t := TrimStart(s);
    var r := TrimEnd(t);
    var a := |s| - |t|;
    var b := a + |r|;
    assert r == Trim(s);
    WindowOf(s, t, r, a);
    assert 0 <= a <= b <= |s| && r == s[a..b];
  }

  lemma WindowOf(s: string, t: string, r: string, a: nat)
    requires a <= |s| && t == s[a..] && |r| <= |t| && r == t[..|r|]
    requires forall i :: |r| <= i < |t| ==> IsWhite(t[i])
    ensures r == s[a..a + |r|]
    ensures forall i :: a + |r| <= i < |s| ==> IsWhite(s[i])
  {
    forall i | a + |r| <= i < |s| ensures IsWhite(s[i]) {
      assert s[i] == t[i - a];
    }
  }

  /** `s.trim().length === 0`, that is `!s.trim()`. */
  predicate IsBlank(s: string) {
    Trim(s) == []
  }

  lemma {:induction false} TrimStartEmpty(s: string)
    ensures TrimStart(s) == [] <==> forall i :: 0 <= i < |s| ==> IsWhite(s[i])
  {
    if s != [] && IsWhite(s[0]) {
      TrimStartEmpty(s[1..]);
      assert forall i :: 1 <= i < |s| ==> s[i] == s[1..][i - 1];
    }
  }

  lemma BlankIffAllWhite(s: string)
    ensures IsBlank(s) <==> forall i :: 0 <= i < |s| ==> IsWhite(s[i])
  {
    TrimStartEmpty(s);
  }

  /** The position of the first `c` in `s`. */
  function IndexOf(s: string, c: char): (i: nat)
    requires c in s
    ensures i < |s| && s[i] == c && c !in s[..i]
  {
    if s[0] == c then 0 else 1 + IndexOf(s[1..], c)
  }

  /** `Array.prototype.join(sep)`: the parts with `sep` between neighbours. */
  function Join(parts: seq<string>, sep: char): string
  {
    if |parts| == 0 then ""
    else if |parts| == 1 then parts[0]
    else parts[0] + [sep] + Join(parts[1..], sep)
  }

  /** `String.prototype.split(sep)`: the maximal pieces of `s` that do not
      contain `sep`, in order, always at least one; joining them back with
      `sep` gives `s`. */
  function Split(s: string, sep: char): (parts: seq<string>)
    ensures |parts| >= 1
    ensures forall i :: 0 <= i < |parts| ==> sep !in parts[i]
    ensures Join(parts, sep) == s
    decreases |s|
  {
    if sep !in s then [s]
    else
      var i := IndexOf(s, sep);
      var rest := Split(s[i + 1..], sep);
      var parts := [s[..i]] + rest;
      assert parts[1..] == rest;
      assert s == s[..i] + [sep] + s[i + 1..];
      parts
  }

  lemma {:induction false} IndexOfAfterPrefix(p: string, sep: char, t: string)
    requires sep !in p
    ensures sep in p + [sep] + t && IndexOf(p + [sep] + t, sep) == |p|
  {
    var s := p + [sep] + t;
    assert s[|p|] == sep;
    if p != [] {
      assert s[1..] == p[1..] + [sep] + t;
      IndexOfAfterPrefix(p[1..], sep, t);
    }
  }

  /** Splitting undoes joining when no part contains the separator. */
  lemma {:induction false} SplitOfJoin(parts: seq<string>, sep: char)
    requires |parts| >= 1
    requires forall i :: 0 <= i < |parts| ==> sep !in parts[i]
    ensures Split(Join(parts, sep), sep) == parts
  {
    if |parts| > 1 {
      var t := Join(parts[1..], sep);
      var s := parts[0] + [sep] + t;
      assert Join(parts, sep) == s;
      IndexOfAfterPrefix(parts[0], sep, t);
      assert s[..|parts[0]|] == parts[0];
      assert s[|parts[0]| + 1..] == t;
      assert Split(s, sep) == [parts[0]] + Split(t, sep);
      SplitOfJoin(parts[1..], sep);
      assert parts == [parts[0]] + parts[1..];
    }
  }

  /** A joined string contains the separator only where the parts do or
      between two parts. */
  lemma {:induction false} JoinAvoids(parts: seq<string>, sep: char, c: char)
    requires c != sep
    requires forall i :: 0 <= i < |parts| ==> c !in parts[i]
    ensures c !in Join(parts, sep)
  {
    if |parts| > 1 {
      JoinAvoids(parts[1..], sep, c);
    }
  }

  /** The first character of a join of parts whose first part is not empty. */
  lemma {:induction false} JoinFirst(parts: seq<string>, sep: char)
    requires |parts| >= 1 && parts[0] != []
    ensures Join(parts, sep) != [] && Join(parts, sep)[0] == parts[0][0]
  {
  }

  /** The last character of a join of parts whose last part is not empty. */
  lemma {:induction false} JoinLast(parts: seq<string>, sep: char)
    requires |parts| >= 1 && parts[|parts| - 1] != []
    ensures Join(parts, sep) != []
    ensures Join(parts, sep)[|Join(parts, sep)| - 1] == parts[|parts| - 1][|parts[|parts| - 1]| - 1]
  {
    if |parts| > 1 {
      JoinLast(parts[1..], sep);
    }
  }

  /** `toLowerCase` on ASCII letters; other characters are kept. */
  function ToLowerChar(c: char): (r: char)
    ensures 'A' <= c <= 'Z' ==> 'a' <= r <= 'z' && r as int == c as int + 32
    ensures !('A' <= c <= 'Z') ==> r == c
  {
    if 'A' <= c <= 'Z' then (c as int + 32) as char else c
  }

  function ToLower(s: string): (r: string)
    ensures |r| == |s|
    ensures forall i :: 0 <= i < |s| ==> r[i] == ToLowerChar(s[i])
  {
    if s == [] then [] else [ToLowerChar(s[0])] + ToLower(s[1..])
  }

  predicate IsDigit(c: char) {
    '0' <= c <= '9'
  }

  predicate AllDecimal(s: string) {
    forall i :: 0 <= i < |s| ==> IsDigit(s[i])
  }

  function DigitChar(d: nat): (c: char)
    requires d < 10
    ensures IsDigit(c) && DigitValue(c, 10) == Some(d)
  {
    ('0' as int + d) as char
  }

  /** The value of `c` as a digit in base `radix` (2 to 36), letters of
      either case counting from 10. */
  function DigitValue(c: char, radix: nat): (r: Option<nat>)
    ensures r.Some? ==> r.value < radix
    ensures radix == 10 ==> (r.Some? <==> IsDigit(c))
  {
    var v :=
      if '0' <= c <= '9' then c as int - '0' as int
      else if 'a' <= c <= 'z' then c as int - 'a' as int + 10
      else if 'A' <= c <= 'Z' then c as int - 'A' as int + 10
      else radix;
    if v < radix then Some(v) else None
  }

  /** Length of the longest prefix of `s` made of base-`radix` digits. */
  function DigitPrefix(s: string, radix: nat): (k: nat)
    ensures k <= |s|
    ensures forall i :: 0 <= i < k ==> DigitValue(s[i], radix).Some?
    ensures k < |s| ==> DigitValue(s[k], radix).None?
  {
    if s == [] || DigitValue(s[0], radix).None? then 0
    else 1 + DigitPrefix(s[1..], radix)
  }

  /** The value of a string of base-`radix` digits, most significant first. */
  function DigitsValue(s: string, radix: nat): nat
  {
    if s == [] then 0
    else DigitsValue(s[..|s| - 1], radix) * radix + DigitValue(s[|s| - 1], radix).GetOr(0)
  }

  /** Decimal digits of a natural number, as a template literal prints it. */
  function NatToString(n: nat): (r: string)
    ensures |r| >= 1 && AllDecimal(r)
  {
    if n < 10 then [DigitChar(n)] else NatToString(n / 10) + [DigitChar(n % 10)]
  }

  /** An integer as a template literal prints it: decimal, with `-` when negative. */
  function IntToString(n: int): (r: string)
    ensures |r| >= 1
    ensures n >= 0 ==> r == NatToString(n)
    ensures n < 0 ==> r == "-" + NatToString(-n)
  {
    if n < 0 then "-" + NatToString(-n) else NatToString(n)
  }

  lemma {:induction false} NatToStringValue(n: nat)
    ensures DigitsValue(NatToString(n), 10) == n
  {
    var r := NatToString(n);
    if n >= 10 {
      NatToStringValue(n / 10);
      assert r[..|r| - 1] == NatToString(n / 10);
    }
  }

  /** Printed numbers contain none of the separators the source splits
      on: comma, line break, space, and `-` when not negative. */
  lemma IntToStringClean(n: int, c: char)
    requires c == ',' || c == '\n' || c == ' ' || (c == '-' && n >= 0)
    ensures c !in IntToString(n)
  {
    var r := IntToString(n);
    if n >= 0 {
      assert forall i :: 0 <= i < |r| ==> IsDigit(r[i]);
    } else {
      var u := NatToString(-n);
      assert r[0] == '-';
      assert forall i :: 1 <= i < |r| ==> r[i] == u[i - 1];
    }
  }

  /** `parseInt(s)` with no radix: leading white space is skipped, then an
      optional sign, then an optional `0x`/`0X` prefix selecting base 16,
      then the longest run of digits; no digits gives `NaN` (`None`). */
  function ParseInt(s: string): Option<int>
  {
    ParseSigned(TrimStart(s))
  }

  /** An optional sign, then an unsigned number. */
  function ParseSigned(t: string): Option<int>
  {
    if |t| > 0 && t[0] == '-' then Negate(ParseUnsigned(t[1..]))
    else if |t| > 0 && t[0] == '+' then ParseUnsigned(t[1..])
    else ParseUnsigned(t)
  }

  function Negate(v: Option<int>): Option<int>
  {
    match v
    case None => None
    case Some(x) => Some(-x)
  }

  /** An optional `0x`/`0X` prefix, then a run of digits. */
  function ParseUnsigned(u: string): Option<int>
  {
    if |u| >= 2 && u[0] == '0' && (u[1] == 'x' || u[1] == 'X') then ParseRun(u[2..], 16)
    else ParseRun(u, 10)
  }

  /** The value of the longest run of base-`radix` digits at the start of
      `w`; `None` when there is none. */
  function ParseRun(w: string, radix: nat): (r: Option<int>)
    ensures r.Some? <==> w != [] && DigitValue(w[0], radix).Some?
    ensures r.Some? ==> r.value >= 0
  {
    var k := DigitPrefix(w, radix);
    if k == 0 then None else Some(DigitsValue(w[..k], radix))
  }

  lemma {:induction false} DigitPrefixAll(u: string)
    requires AllDecimal(u)
    ensures DigitPrefix(u, 10) == |u|
  {
    if u != [] {
      assert IsDigit(u[0]);
      assert AllDecimal(u[1..]) by {
        assert forall i :: 0 <= i < |u| - 1 ==> u[1..][i] == u[i + 1];
      }
      DigitPrefixAll(u[1..]);
    }
  }

  /** A non-empty run of decimal digits is read as its value. */
  lemma ParseUnsignedOfDigits(u: string)
    requires u != [] && AllDecimal(u)
    ensures ParseUnsigned(u) == Some(DigitsValue(u, 10))
  {
    DigitPrefixAll(u);
    assert u[..|u|] == u;
    assert |u| >= 2 ==> IsDigit(u[1]);
  }

  /** `parseInt` reads a run of decimal digits as its value. */
  lemma ParseIntOfDigits(u: string)
    requires u != [] && AllDecimal(u)
    ensures ParseInt(u) == Some(DigitsValue(u, 10))
  {
    ParseUnsignedOfDigits(u);
    assert IsDigit(u[0]);
    TrimStartKeeps(u);
  }

  /** `parseInt` reads a minus sign followed by decimal digits as the
      negated value of the digits. */
  lemma ParseIntOfNegDigits(m: string, n: int)
    requires |m| >= 2 && m[0] == '-' && AllDecimal(m[1..])
    requires DigitsValue(m[1..], 10) == -n
    ensures ParseInt(m) == Some(n)
  {
    ParseUnsignedOfDigits(m[1..]);
    TrimStartKeeps(m);
  }

  /** A string that does not begin with white space is its own `TrimStart`. */
  lemma TrimStartKeeps(t: string)
    requires t != [] && !IsWhite(t[0])
    ensures TrimStart(t) == t
  {
  }

  /** `parseInt` reads back every printed integer. */
  lemma ParseIntOfIntToString(n: int)
    ensures ParseInt(IntToString(n)) == Some(n)
  {
    if n < 0 {
      var u := NatToString(-n);
      NatToStringValue(-n);
      var r := "-" + u;
      assert r[1..] == u;
      assert |r| >= 2 && r[0] == '-';
      ParseIntOfNegDigits(r, n);
    } else {
      ParseIntOfDigits(NatToString(n));
      NatToStringValue(n);
    }
  }

  /** `Number(s)` for the strings the source feeds it: after trimming, the
      empty string is 0, an optionally signed run of decimal digits is its
      value, anything else is `NaN` (`None`). */
  function NumberOf(s: string): Option<int>
  {
    var t := Trim(s);
    if t == [] then Some(0)
    else if t[0] == '-' then Negate(DecimalValue(t[1..]))
    else if t[0] == '+' then DecimalValue(t[1..])
    else DecimalValue(t)
  }

  /** The value of a non-empty string made only of decimal digits. */
  function DecimalValue(u: string): (r: Option<int>)
    ensures r.Some? <==> u != [] && AllDecimal(u)
  {
    if u != [] && AllDecimal(u) then Some(DigitsValue(u, 10)) else None
  }

  /** `Number` reads a run of decimal digits as its value. */
  lemma NumberOfDigits(u: string)
    requires u != [] && AllDecimal(u)
    ensures NumberOf(u) == Some(DigitsValue(u, 10))
  {
    assert IsDigit(u[0]) && IsDigit(u[|u| - 1]);
    assert !IsWhite(u[0]) && !IsWhite(u[|u| - 1]);
    assert Trim(u) == u;
    assert u[0] != '-' && u[0] != '+';
    assert NumberOf(u) == DecimalValue(u);
  }

  /** `Number` reads back every printed natural number. */
  lemma NumberOfNatToString(n: nat)
    ensures NumberOf(NatToString(n)) == Some(n)
  {
    NumberOfDigits(NatToString(n));
    NatToStringValue(n);
  }
}
