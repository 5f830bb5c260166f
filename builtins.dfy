/**
 * The JavaScript built-ins the components rely on, on unbounded integers and
 * on strings as sequences of characters: `toLowerCase`, `includes`, `trim`,
 * the default ordering used by `Array.prototype.sort`, `Math.round` of a
 * ratio and `Number.prototype.toString`. Lowering covers ASCII, Latin-1 and
 * Vietnamese capitals only, and strings are ordered by code point rather
 * than by UTF-16 code unit.
 */
module Builtins {

  // ---------------------------------------------------------------- lowering

  /**
   * Lower-case mapping of one character: ASCII, Latin-1 capitals, and the
   * capitals of Vietnamese script (Ă, Đ, Ĩ, Ũ, Ơ, Ư and the precomposed block
   * U+1EA0..U+1EF9, where every even code point is a capital followed by its
   * small letter). Other characters are returned unchanged.
   */
  function LowerChar(c: char): (r: char)
    ensures 'a' <= r <= 'z' <==> ('a' <= c <= 'z' || 'A' <= c <= 'Z')
  {
    if 'A' <= c <= 'Z' then (c as int + 32) as char
    else if 'À' <= c <= 'Þ' && c != '×' then (c as int + 32) as char
    else if c == 'Ă' || c == 'Đ' || c == 'Ĩ' || c == 'Ũ' || c == 'Ơ' then (c as int + 1) as char
    else if c == 'Ư' then 'ư'
    else if 'Ạ' <= c <= 'Ỹ' && (c as int) % 2 == 0 then (c as int + 1) as char
    else c
  }

  /** `s.toLowerCase()`, one character at a time. */
  function Lower(s: string): (r: string)
    ensures |r| == |s|
    ensures forall i :: 0 <= i < |s| ==> r[i] == LowerChar(s[i])
  {
    seq(|s|, i requires 0 <= i < |s| => LowerChar(s[i]))
  }

  // ---------------------------------------------------------------- includes

  /** `hay.includes(needle)`: `needle` occurs as a contiguous block of `hay`. */
  function Contains(hay: string, needle: string): bool
    decreases |hay|
  {
    if |needle| > |hay| then false
    else needle == hay[..|needle|] || Contains(hay[1..], needle)
  }

  /** Every string includes the empty string. */
  lemma {:induction false} ContainsEmpty(hay: string)
    ensures Contains(hay, "")
  {
    assert "" == hay[..0];
  }

  /** A block at position `i` that equals the needle is found by `Contains`. */
  lemma {:induction false} ContainsAt(hay: string, needle: string, i: nat)
    requires i + |needle| <= |hay| && hay[i..i + |needle|] == needle
    ensures Contains(hay, needle)
    decreases i
  {
    if i > 0 {
      assert hay[1..][i - 1..i - 1 + |needle|] == hay[i..i + |needle|];
      ContainsAt(hay[1..], needle, i - 1);
    } else {
      assert hay[..|needle|] == needle;
    }
  }

  /** `needle` sits in `hay` starting at position `i`. */
  predicate OccursAt(hay: string, needle: string, i: nat) {
    i + |needle| <= |hay| && hay[i..i + |needle|] == needle
  }

  /** Every hit of `Contains` is a block of the text equal to the needle. */
  lemma {:induction false} ContainsFound(hay: string, needle: string)
    requires Contains(hay, needle)
    ensures exists i: nat :: OccursAt(hay, needle, i)
    decreases |hay|
  {
    if needle == hay[..|needle|] {
      assert OccursAt(hay, needle, 0);
    } else {
      ContainsFound(hay[1..], needle);
      var i: nat :| OccursAt(hay[1..], needle, i);
      assert hay[i + 1..i + 1 + |needle|] == hay[1..][i..i + |needle|];
      assert OccursAt(hay, needle, i + 1);
    }
  }

  // ---------------------------------------------------------------- trim

  /** The characters `String.prototype.trim` removes: white space and line terminators. */
  predicate IsJsWhitespace(c: char) {
    c == '\t' || c == '\n' || c == '\U{B}' || c == '\U{C}' || c == '\r' || c == ' '
    || c == '\U{A0}' || c == '\U{1680}' || ('\U{2000}' <= c <= '\U{200A}')
    || c == '\U{2028}' || c == '\U{2029}' || c == '\U{202F}' || c == '\U{205F}'
    || c == '\U{3000}' || c == '\U{FEFF}'
  }

  /** `!s.trim()`: the string is empty once trimmed, i.e. it is blank. */
  predicate IsBlank(s: string) {
    forall i :: 0 <= i < |s| ==> IsJsWhitespace(s[i])
  }

  // ---------------------------------------------------------------- ordering

  /** The default comparison of `Array.prototype.sort` on strings: code point by code point, a proper prefix first. */
  predicate StrLess(a: string, b: string)
    decreases |a|
  {
    if a == [] then b != []
    else if b == [] then false
    else if a[0] != b[0] then a[0] < b[0]
    else StrLess(a[1..], b[1..])
  }

  lemma {:induction false} StrLessIrreflexive(a: string)
    ensures !StrLess(a, a)
    decreases |a|
  {
    if a != [] { StrLessIrreflexive(a[1..]); }
  }

  lemma {:induction false} StrLessTransitive(a: string, b: string, c: string)
    requires StrLess(a, b) && StrLess(b, c)
    ensures StrLess(a, c)
    decreases |a|
  {
    if a != [] && a[0] == b[0] && b[0] == c[0] {
      StrLessTransitive(a[1..], b[1..], c[1..]);
    }
  }

  /** Any two different strings are ordered one way or the other. */
  lemma {:induction false} StrLessTotal(a: string, b: string)
    requires a != b
    ensures StrLess(a, b) || StrLess(b, a)
    decreases |a|
  {
    if a != [] && b != [] && a[0] == b[0] {
      assert a == [a[0]] + a[1..] && b == [b[0]] + b[1..];
      StrLessTotal(a[1..], b[1..]);
    }
  }

  /** Adjacent entries are in strictly ascending order. */
  ghost predicate StrictlySorted(s: seq<string>) {
    forall i :: 0 <= i && i + 1 < |s| ==> StrLess(s[i], s[i + 1])
  }

  ghost predicate Distinct(s: seq<string>) {
    forall i, j :: 0 <= i < j < |s| ==> s[i] != s[j]
  }

  /** Adjacent order gives order between any two positions, hence no duplicates. */
  lemma {:induction false} StrictlySortedPairwise(s: seq<string>)
    requires StrictlySorted(s)
    ensures forall i, j :: 0 <= i < j < |s| ==> StrLess(s[i], s[j])
    ensures Distinct(s)
  {
    if |s| > 1 {
      StrictlySortedPairwise(s[1..]);
      forall j | 1 < j < |s| ensures StrLess(s[0], s[j]) {
        assert StrLess(s[1..][0], s[1..][j - 1]);
        StrLessTransitive(s[0], s[1], s[j]);
      }
      forall i, j | 0 <= i < j < |s| ensures StrLess(s[i], s[j]) {
        if i > 0 { assert StrLess(s[1..][i - 1], s[1..][j - 1]); }
      }
      forall i, j | 0 <= i < j < |s| ensures s[i] != s[j] {
        StrLessIrreflexive(s[i]);
      }
    }
  }

  /** One insertion step of sorting: `x` goes in front of the first entry not below it. */
  function Insert(x: string, s: seq<string>): (r: seq<string>)
    ensures |r| == |s| + 1
    ensures forall y :: y in r <==> y == x || y in s
    ensures r[0] == x || (s != [] && r[0] == s[0])
  {
    if s == [] || !StrLess(s[0], x) then [x] + s else [s[0]] + Insert(x, s[1..])
  }

  /** `Array.prototype.sort()` with its default string comparison. */
  function SortStrings(s: seq<string>): (r: seq<string>)
    ensures |r| == |s|
    ensures forall y :: y in r <==> y in s
  {
    if s == [] then [] else Insert(s[0], SortStrings(s[1..]))
  }

  /** Inserting a new string into a strictly sorted list keeps it strictly sorted. */
  lemma {:induction false} InsertSorted(x: string, s: seq<string>)
    requires StrictlySorted(s) && x !in s
    ensures StrictlySorted(Insert(x, s))
  {
    if s != [] {
      if !StrLess(s[0], x) {
        StrLessTotal(x, s[0]);
      } else {
        assert StrictlySorted(s[1..]) by {
          forall i | 0 <= i && i + 1 < |s[1..]| ensures StrLess(s[1..][i], s[1..][i + 1]) {
            assert s[1..][i] == s[i + 1] && s[1..][i + 1] == s[i + 2];
          }
        }
        InsertSorted(x, s[1..]);
        var t := Insert(x, s[1..]);
        assert StrLess(s[0], t[0]);
        assert Insert(x, s) == [s[0]] + t;
      }
    }
  }

  /** Sorting distinct strings gives a strictly ascending list. */
  lemma {:induction false} SortStringsSorted(s: seq<string>)
    requires Distinct(s)
    ensures StrictlySorted(SortStrings(s))
  {
    if s != [] {
      assert Distinct(s[1..]) by {
        forall i, j | 0 <= i < j < |s[1..]| ensures s[1..][i] != s[1..][j] {
          assert s[1..][i] == s[i + 1] && s[1..][j] == s[j + 1];
        }
      }
      SortStringsSorted(s[1..]);
      assert s[0] !in s[1..] by {
        forall j | 0 <= j < |s[1..]| ensures s[1..][j] != s[0] {
          assert s[1..][j] == s[j + 1];
        }
      }
      InsertSorted(s[0], SortStrings(s[1..]));
    }
  }

  // ---------------------------------------------------------------- Math.round

  /**
   * `Math.round(n / d)` computed exactly: the integer nearest to n/d, halves
   * rounded towards positive infinity.
   */
  function RoundDiv(n: int, d: int): (r: int)
    requires d != 0
    ensures d > 0 ==> d * (2 * r - 1) <= 2 * n < d * (2 * r + 1)
    ensures d < 0 ==> -d * (2 * r - 1) <= -2 * n < -d * (2 * r + 1)
  {
    if d > 0 then (2 * n + d) / (2 * d) else (-2 * n - d) / (-2 * d)
  }

  /** Rounding a ratio that is at most k gives at most k. */
  lemma RoundDivAtMost(n: int, d: int, k: int)
    requires d > 0 && n <= k * d
    ensures RoundDiv(n, d) <= k
  {
    var x, m := 2 * n + d, 2 * d;
    var q := x / m;
    assert m * q <= x;
    assert x < m * (k + 1);
    assert m * (k + 1 - q) == m * (k + 1) - m * q;
    PositiveFactor(m, k + 1 - q);
  }

  lemma PositiveFactor(m: int, t: int)
    requires m > 0 && m * t > 0
    ensures t > 0
  {
  }

  /** Rounding a non-negative ratio gives a non-negative number. */
  lemma RoundDivNonNegative(n: int, d: int)
    requires d > 0 && n >= 0
    ensures RoundDiv(n, d) >= 0
  {
  }

  /** Rounding an exact multiple gives the quotient. */
  lemma RoundDivExact(k: int, d: int)
    requires d > 0
    ensures RoundDiv(k * d, d) == k
  {
    var r := RoundDiv(k * d, d);
    assert d * (2 * r - 1) < d * (2 * k + 1);
    assert d * (2 * k - 1) < d * (2 * r + 1);
  }

  function Min(a: int, b: int): int { if a <= b then a else b }

  // ---------------------------------------------------------------- toString

  function Digit(d: nat): (c: char)
    requires d < 10
    ensures '0' <= c <= '9'
  {
    (48 + d) as char
  }

  /** `n.toString()` for a non-negative integer: its decimal digits, no leading zero. */
  function DecimalString(n: nat): (s: string)
    ensures 1 <= |s|
    ensures forall i :: 0 <= i < |s| ==> '0' <= s[i] <= '9'
    decreases n
  {
    if n < 10 then [Digit(n)] else DecimalString(n / 10) + [Digit(n % 10)]
  }

  /** Different numbers have different decimal strings. */
  lemma {:induction false} DecimalStringInjective(a: nat, b: nat)
    requires DecimalString(a) == DecimalString(b)
    ensures a == b
    decreases a
  {
    var s := DecimalString(a);
    if a >= 10 && b >= 10 {
      assert DecimalString(a / 10) == s[..|s| - 1] == DecimalString(b / 10);
      assert Digit(a % 10) == s[|s| - 1] == Digit(b % 10);
      DecimalStringInjective(a / 10, b / 10);
    } else if a < 10 && b < 10 {
      assert Digit(a) == s[0] == Digit(b);
    }
  }
}
