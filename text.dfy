/**
 * The string primitives the pages rely on, written out: JavaScript's
 * `String.prototype.trim`, ASCII case mapping for `toLowerCase` /
 * `toUpperCase`, `includes`, the character ordering behind `<=` / `>=` on
 * strings, and fixed-width decimal digits as `toISOString` prints them.
 */
module Text {

  /** WhiteSpace or LineTerminator in the sense of the ECMAScript grammar, which `trim` strips. */
  predicate IsSpace(c: char)
  {
    var n := c as int;
    n == 9 || n == 10 || n == 11 || n == 12 || n == 13 || n == 32 || n == 0xA0 ||
    n == 0x1680 || (0x2000 <= n <= 0x200A) || n == 0x2028 || n == 0x2029 ||
    n == 0x202F || n == 0x205F || n == 0x3000 || n == 0xFEFF
  }

  predicate AllSpace(s: string)
  {
    forall k :: 0 <= k < |s| ==> IsSpace(s[k])
  }

  lemma SpaceCons(c: char, s: string)
    requires IsSpace(c) && AllSpace(s)
    ensures AllSpace([c] + s)
  {
    assert forall k :: 1 <= k < |s| + 1 ==> ([c] + s)[k] == s[k - 1];
  }

  lemma SpaceSnoc(s: string, c: char)
    requires AllSpace(s) && IsSpace(c)
    ensures AllSpace(s + [c])
  {
    assert forall k :: 0 <= k < |s| ==> (s + [c])[k] == s[k];
  }

  /** How many white-space characters `s` starts with. */
  function LeadingSpace(s: string): (n: nat)
    ensures n <= |s|
    ensures AllSpace(s[..n])
    ensures n == |s| || !IsSpace(s[n])
  {
    if s != [] && IsSpace(s[0]) then
      var m := LeadingSpace(s[1..]);
      assert s[..m + 1] == [s[0]] + s[1..][..m];
      SpaceCons(s[0], s[1..][..m]);
      m + 1
    else 0
  }

  /** Where the white space that `s` ends with begins. */
  function TrailingSpace(s: string): (n: nat)
    ensures n <= |s|
    ensures AllSpace(s[n..])
    ensures n == 0 || !IsSpace(s[n - 1])
  {
    if s != [] && IsSpace(s[|s| - 1]) then
      var m := TrailingSpace(s[..|s| - 1]);
      assert s[m..] == s[..|s| - 1][m..] + [s[|s| - 1]];
      SpaceSnoc(s[..|s| - 1][m..], s[|s| - 1]);
      m
    else |s|
  }

  /** `s` without its leading white space: a suffix of `s`. */
  function TrimStart(s: string): (r: string)
    ensures |r| <= |s| && r == s[|s| - |r|..]
    ensures AllSpace(s[..|s| - |r|])
    ensures r == [] || !IsSpace(r[0])
  {
    s[LeadingSpace(s)..]
  }

  /** `s` without its trailing white space: a prefix of `s`. */
  function TrimEnd(s: string): (r: string)
    ensures |r| <= |s| && r == s[..|r|]
    ensures AllSpace(s[|r|..])
    ensures r == [] || !IsSpace(r[|r| - 1])
  {
    s[..TrailingSpace(s)]
  }

  /** `s.trim()`: empty exactly when `s` is all white space, otherwise bounded by non-space characters. */
  function Trim(s: string): (r: string)
    ensures |r| <= |s|
    ensures LeadingSpace(s) + |r| <= |s|
    ensures r == s[LeadingSpace(s)..LeadingSpace(s) + |r|]
    ensures AllSpace(s[..LeadingSpace(s)]) && AllSpace(s[LeadingSpace(s) + |r|..])
    ensures r == [] <==> AllSpace(s)
    ensures r == [] || (!IsSpace(r[0]) && !IsSpace(r[|r| - 1]))
  {
    var a := LeadingSpace(s);
    var t := s[a..];
    var r := TrimEnd(t);
    TrimBounds(s, a, t, r);
    assert t[|r|..] == s[a + |r|..];
    r
  }

  lemma TrimBounds(s: string, a: nat, t: string, r: string)
    requires a <= |s| && AllSpace(s[..a]) && (a == |s| || !IsSpace(s[a]))
    requires t == s[a..]
    requires |r| <= |t| && r == t[..|r|] && AllSpace(t[|r|..])
    ensures r == [] ==> AllSpace(s)
    ensures r != [] ==> !IsSpace(r[0]) && !AllSpace(s)
  {
    if r == [] {
      assert t[|r|..] == t;
      assert s == s[..a] + t;
      SpaceConcat(s[..a], t);
    } else {
      assert r[0] == t[0] == s[a];
      assert !IsSpace(s[a]);
    }
  }

  lemma SpaceConcat(x: string, y: string)
    requires AllSpace(x) && AllSpace(y)
    ensures AllSpace(x + y)
  {
    assert forall k :: |x| <= k < |x| + |y| ==> (x + y)[k] == y[k - |x|];
  }

  /** Trimming an already trimmed string changes nothing. */
  lemma TrimIdempotent(s: string)
    ensures Trim(Trim(s)) == Trim(s)
  {
    var r := Trim(s);
    if r != [] {
      assert LeadingSpace(r) == 0;
      assert r[0..] == r;
      assert TrailingSpace(r) == |r|;
      assert TrimEnd(r) == r;
    }
  }

  function LowerChar(c: char): char
  {
    if 'A' <= c <= 'Z' then (c as int + 32) as char else c
  }

  function UpperChar(c: char): char
  {
    if 'a' <= c <= 'z' then (c as int - 32) as char else c
  }

  /**
   * `s.toLowerCase()` restricted to ASCII letters. The search box relies on
   * it through `ExpenseSearch.FilteredExpenses`, and `Dashboard.Capitalize`
   * is stated in terms of it.
   */
  function ToLower(s: string): (r: string)
    ensures |r| == |s|
    ensures forall k :: 0 <= k < |s| ==> r[k] == LowerChar(s[k])
    ensures forall k :: 0 <= k < |r| ==> !('A' <= r[k] <= 'Z')
  {
    seq(|s|, k requires 0 <= k < |s| => LowerChar(s[k]))
  }

  /** Lower-casing twice is lower-casing once. */
  lemma ToLowerIdempotent(s: string)
    ensures ToLower(ToLower(s)) == ToLower(s)
  {
    var once := ToLower(s);
    forall k | 0 <= k < |once|
      ensures ToLower(once)[k] == once[k]
    {
      assert !('A' <= once[k] <= 'Z');
    }
  }

  /** Lower-casing works character by character, so it distributes over `+`. */
  lemma ToLowerAppend(a: string, b: string)
    ensures ToLower(a + b) == ToLower(a) + ToLower(b)
  {
    var whole, parts := ToLower(a + b), ToLower(a) + ToLower(b);
    assert |whole| == |parts|;
    forall k | 0 <= k < |whole|
      ensures whole[k] == parts[k]
    {
      if k < |a| {
        assert (a + b)[k] == a[k];
      } else {
        assert (a + b)[k] == b[k - |a|];
      }
    }
  }

  predicate IsPrefix(p: string, s: string)
  {
    |p| <= |s| && s[..|p|] == p
  }

  /** `s.includes(q)`: `q` occurs in `s` at some position (the empty string occurs everywhere). */
  function Includes(s: string, q: string): (b: bool)
    ensures b <==> exists i :: 0 <= i <= |s| && IsPrefix(q, s[i..])
  {
    if IsPrefix(q, s) then
      assert s[0..] == s;
      true
    else if s == [] then false
    else
      var b := Includes(s[1..], q);
      assert forall i :: 1 <= i <= |s| ==> s[1..][i - 1..] == s[i..];
      assert b ==> exists i :: 0 <= i <= |s| && IsPrefix(q, s[i..]);
      assert (exists i :: 0 <= i <= |s| && IsPrefix(q, s[i..])) ==>
             (exists i :: 0 <= i <= |s[1..]| && IsPrefix(q, s[1..][i..])) by {
        if exists i :: 0 <= i <= |s| && IsPrefix(q, s[i..]) {
          var i :| 0 <= i <= |s| && IsPrefix(q, s[i..]);
          assert i != 0 by { assert s[0..] == s; }
          assert s[1..][i - 1..] == s[i..];
        }
      }
      b
  }

  /**
   * `a < b` on JavaScript strings: lexicographic comparison, a proper prefix
   * coming first. A `char` here is a Unicode scalar value, so this is
   * code-point order; it agrees with JavaScript's UTF-16 code-unit order on
   * strings without characters above U+FFFF, such as the ISO dates compared.
   */
  predicate StrLess(a: string, b: string)
  {
    if a == [] then b != []
    else if b == [] then false
    else if a[0] != b[0] then a[0] < b[0]
    else StrLess(a[1..], b[1..])
  }

  /** `a <= b` on JavaScript strings (and `b >= a`). */
  predicate StrLessEq(a: string, b: string)
  {
    a == b || StrLess(a, b)
  }

  /** `StrLess` never holds between a string and itself. */
  lemma {:induction false} StrLessIrreflexive(a: string)
    ensures !StrLess(a, a)
  {
    if a != [] {
      StrLessIrreflexive(a[1..]);
    }
  }

  /** Of two different strings, exactly one is less than the other. */
  lemma {:induction false} StrLessTrichotomy(a: string, b: string)
    ensures a != b <==> (StrLess(a, b) || StrLess(b, a))
    ensures !(StrLess(a, b) && StrLess(b, a))
  {
    if a == [] || b == [] {
      if a == b { StrLessIrreflexive(a); }
    } else if a[0] == b[0] {
      StrLessTrichotomy(a[1..], b[1..]);
      if a[1..] == b[1..] {
        assert a == [a[0]] + a[1..] && b == [b[0]] + b[1..];
      }
    }
  }

  /** `StrLess` is transitive, so the date window is an interval of an order. */
  lemma {:induction false} StrLessTransitive(a: string, b: string, c: string)
    requires StrLess(a, b) && StrLess(b, c)
    ensures StrLess(a, c)
  {
    if a != [] && a[0] == b[0] && b[0] == c[0] {
      StrLessTransitive(a[1..], b[1..], c[1..]);
    }
  }

  /** `StrLessEq` is an order: transitive and antisymmetric. */
  lemma StrLessEqOrder(a: string, b: string, c: string)
    ensures StrLessEq(a, b) && StrLessEq(b, c) ==> StrLessEq(a, c)
    ensures StrLessEq(a, b) && StrLessEq(b, a) ==> a == b
  {
    if StrLess(a, b) && StrLess(b, c) { StrLessTransitive(a, b, c); }
    StrLessTrichotomy(a, b);
  }

  /** A common prefix does not change how two strings compare. */
  lemma {:induction false} StrLessCommonPrefix(p: string, x: string, y: string)
    ensures StrLess(p + x, p + y) == StrLess(x, y)
  {
    if p != [] {
      assert (p + x)[1..] == p[1..] + x;
      assert (p + y)[1..] == p[1..] + y;
      StrLessCommonPrefix(p[1..], x, y);
    } else {
      assert p + x == x && p + y == y;
    }
  }

  predicate IsDigit(c: char)
  {
    '0' <= c <= '9'
  }

  predicate AllDigits(s: string)
  {
    forall k :: 0 <= k < |s| ==> IsDigit(s[k])
  }

  function DigitChar(d: int): (c: char)
    requires 0 <= d <= 9
    ensures IsDigit(c)
  {
    (d + '0' as int) as char
  }

  function DigitValue(c: char): int
    requires IsDigit(c)
  {
    c as int - '0' as int
  }

  /** The number a string of decimal digits denotes, as `Number` and `parseInt` read it. */
  function DigitsValue(s: string): (n: nat)
    requires AllDigits(s)
  {
    if s == [] then 0 else DigitsValue(s[..|s| - 1]) * 10 + DigitValue(s[|s| - 1])
  }

  /** `n` as two decimal digits with a leading zero, as dates print months and days. */
  function Pad2(n: int): (r: string)
    requires 0 <= n < 100
    ensures |r| == 2 && AllDigits(r)
  {
    [DigitChar(n / 10), DigitChar(n % 10)]
  }

  /** `n` as four decimal digits with leading zeros, as dates print the years 0 to 9999. */
  function Pad4(n: int): (r: string)
    requires 0 <= n < 10000
    ensures |r| == 4 && AllDigits(r)
  {
    Pad2(n / 100) + Pad2(n % 100)
  }

  /** Reading two printed digits back gives the number. */
  lemma Pad2Value(n: int)
    requires 0 <= n < 100
    ensures DigitsValue(Pad2(n)) == n
  {
    var r := Pad2(n);
    assert r[..1][..0] == [];
    assert DigitsValue(r[..1]) == n / 10;
  }

  /** Printing the value of two digits gives the digits back. */
  lemma Pad2OfValue(s: string)
    requires |s| == 2 && AllDigits(s)
    ensures DigitsValue(s) < 100 && Pad2(DigitsValue(s)) == s
  {
    assert s[..1][..0] == [] && s[..1][0] == s[0];
    assert DigitsValue(s[..1]) == DigitValue(s[0]);
    var n := DigitsValue(s);
    assert n == DigitValue(s[0]) * 10 + DigitValue(s[1]);
  }

  /** Printing the value of four digits gives the digits back. */
  lemma Pad4OfValue(s: string)
    requires |s| == 4 && AllDigits(s)
    ensures DigitsValue(s) < 10000 && Pad4(DigitsValue(s)) == s
  {
    var hi, lo := s[..2], s[2..];
    Pad2OfValue(hi);
    Pad2OfValue(lo);
    FourDigits(s);
    Div100(DigitsValue(s), DigitsValue(hi), DigitsValue(lo));
    assert hi + lo == s;
  }

  /** Four digits are worth a hundred times their first two plus their last two. */
  lemma FourDigits(s: string)
    requires |s| == 4 && AllDigits(s)
    ensures DigitsValue(s) == DigitsValue(s[..2]) * 100 + DigitsValue(s[2..])
  {
    var d0, d1, d2, d3 := DigitValue(s[0]), DigitValue(s[1]), DigitValue(s[2]), DigitValue(s[3]);
    assert s[..1][..0] == [] && s[..1][0] == s[0];
    assert s[..2][..1] == s[..1] && s[..2][1] == s[1];
    assert s[..3][..2] == s[..2] && s[..3][2] == s[2];
    assert s[..3] == s[..|s| - 1];
    assert DigitsValue(s[..1]) == d0;
    assert DigitsValue(s[..2]) == d0 * 10 + d1;
    assert DigitsValue(s[..3]) == (d0 * 10 + d1) * 10 + d2;
    var lo := s[2..];
    assert lo[..1][..0] == [] && lo[..1][0] == s[2] && lo[..|lo| - 1] == lo[..1] && lo[1] == s[3];
    assert DigitsValue(lo[..1]) == d2;
    assert DigitsValue(lo) == d2 * 10 + d3;
  }

  lemma Div100(n: int, q: int, r: int)
    requires n == q * 100 + r && 0 <= r < 100
    ensures n / 100 == q && n % 100 == r
  {
  }

  /** Two different two-digit numbers print in the same order as the numbers themselves. */
  lemma Pad2Ordered(a: int, b: int)
    requires 0 <= a < b < 100
    ensures StrLess(Pad2(a), Pad2(b))
  {
    if a / 10 == b / 10 {
      assert a % 10 < b % 10;
      assert Pad2(a)[1..] == [DigitChar(a % 10)];
      assert Pad2(b)[1..] == [DigitChar(b % 10)];
    }
  }

  /** `String(n)` for an integer: decimal digits, with a leading '-' when negative. */
  function IntToString(n: int): (r: string)
    ensures r != []
    ensures n >= 0 ==> AllDigits(r) && DigitsValue(r) == n
    ensures n < 0 ==> r[0] == '-' && AllDigits(r[1..]) && DigitsValue(r[1..]) == -n
    ensures n >= 0 ==> |r| == 1 || r[0] != '0'
    ensures n < 0 ==> |r| >= 2 && r[1] != '0'
  {
    if n < 0 then "-" + NatToString(-n) else NatToString(n)
  }

  /** The decimal form of `n`: no leading zero unless `n` is 0 itself. */
  function NatToString(n: nat): (r: string)
    ensures r != [] && AllDigits(r)
    ensures DigitsValue(r) == n
    ensures |r| == 1 || r[0] != '0'
    ensures r[0] == '0' <==> n == 0
  {
    var last := [DigitChar(n % 10)];
    assert DigitsValue(last) == n % 10 by { assert last[..0] == []; }
    if n < 10 then last
    else
      var r := NatToString(n / 10) + last;
      assert r[..|r| - 1] == NatToString(n / 10);
      r
  }
}
