/** The JavaScript string operations the components rely on, over Dafny
    strings (sequences of Unicode scalar values): `toLowerCase` restricted to
    ASCII letters, `includes`, `startsWith`, the blank test `trim() === ''`,
    `split(sep).pop()`, and the decimal rendering of a non-negative integer
    used in `${Date.now()}` and `toString()`. */
module Text {

  /** ASCII case mapping; other characters are left as they are. */
  function LowerChar(c: char): char {
    if 'A' <= c <= 'Z' then (c as int + 32) as char else c
  }

  /** `s.toLowerCase()` on the ASCII letters. */
  function ToLower(s: string): (r: string)
    ensures |r| == |s|
    ensures forall i :: 0 <= i < |s| ==> r[i] == LowerChar(s[i])
    ensures forall i :: 0 <= i < |r| ==> !('A' <= r[i] <= 'Z')
  {
    seq(|s|, i requires 0 <= i < |s| => LowerChar(s[i]))
  }

  /** `needle` occurs in `hay` starting at offset `i`. */
  predicate OccursAt(hay: string, needle: string, i: nat) {
    i + |needle| <= |hay| && hay[i..i + |needle|] == needle
  }

  /** `hay.includes(needle)`: `needle` occurs in `hay` at some offset. */
  predicate Includes(hay: string, needle: string) {
    exists i: nat | i <= |hay| :: OccursAt(hay, needle, i)
  }

  /** Every string includes the empty string. */
  lemma IncludesEmpty(hay: string)
    ensures Includes(hay, "")
  {
    assert OccursAt(hay, "", 0);
  }

  /** A one-character needle is included exactly when it occurs in `hay`. */
  lemma IncludesChar(hay: string, c: char)
    ensures Includes(hay, [c]) <==> c in hay
  {
    if c in hay {
      var i :| 0 <= i < |hay| && hay[i] == c;
      assert OccursAt(hay, [c], i);
    }
    if Includes(hay, [c]) {
      var i: nat :| i <= |hay| && OccursAt(hay, [c], i);
      assert hay[i] == hay[i..i + 1][0];
    }
  }

  /** `s.startsWith(prefix)`. */
  predicate StartsWith(s: string, prefix: string) {
    |prefix| <= |s| && s[..|prefix|] == prefix
  }

  /** The characters `String.prototype.trim` removes: the ECMAScript
      WhiteSpace and LineTerminator code points. */
  predicate IsJsWhitespace(c: char) {
    var n := c as int;
    n == 0x09 || n == 0x0A || n == 0x0B || n == 0x0C || n == 0x0D || n == 0x20
    || n == 0xA0 || n == 0x1680 || (0x2000 <= n <= 0x200A) || n == 0x2028
    || n == 0x2029 || n == 0x202F || n == 0x205F || n == 0x3000 || n == 0xFEFF
  }

  /** `s.trim() === ''`: the string is empty or made of white space only. */
  predicate IsBlank(s: string) {
    forall i :: 0 <= i < |s| ==> IsJsWhitespace(s[i])
  }

  /** `s.split(sep).pop()`: the text after the last `sep`, or all of `s` when
      it has none. */
  function LastSegment(s: string, sep: char): (r: string)
    ensures sep !in r
    ensures |r| <= |s| && r == s[|s| - |r|..]
    ensures |r| == |s| || s[|s| - |r| - 1] == sep
    decreases |s|
  {
    if s == [] then ""
    else if s[|s| - 1] == sep then ""
    else LastSegment(s[..|s| - 1], sep) + [s[|s| - 1]]
  }

  /** A string without the separator is its own last segment. */
  lemma {:induction false} LastSegmentWithoutSeparator(s: string, sep: char)
    requires sep !in s
    ensures LastSegment(s, sep) == s
    decreases |s|
  {
    if s != [] {
      var init := s[..|s| - 1];
      assert s == init + [s[|s| - 1]];
      LastSegmentWithoutSeparator(init, sep);
    }
  }

  /** The segment after the last separator of `prefix + [sep] + seg` is `seg`
      whenever `seg` itself holds no separator. */
  lemma {:induction false} LastSegmentOfJoin(prefix: string, sep: char, seg: string)
    requires sep !in seg
    ensures LastSegment(prefix + [sep] + seg, sep) == seg
    decreases |seg|
  {
    var s := prefix + [sep] + seg;
    if seg == [] {
      assert s[|s| - 1] == sep;
    } else {
      var init := seg[..|seg| - 1];
      assert s[..|s| - 1] == prefix + [sep] + init;
      assert s[|s| - 1] == seg[|seg| - 1];
      LastSegmentOfJoin(prefix, sep, init);
      assert init + [seg[|seg| - 1]] == seg;
    }
  }

  /** In `a + [sep] + b` with no separator in `a`, the first separator is
      at position `|a|`. */
  lemma FirstSeparator(a: string, b: string, sep: char)
    requires sep !in a
    ensures (a + [sep] + b)[|a|] == sep
    ensures forall i :: 0 <= i < |a| ==> (a + [sep] + b)[i] != sep
  {
    forall i | 0 <= i < |a| ensures (a + [sep] + b)[i] != sep {
      assert (a + [sep] + b)[i] == a[i];
    }
  }

  /** Splitting at the first separator is unique when the left parts hold none. */
  lemma SplitAtSeparator(a1: string, b1: string, a2: string, b2: string, sep: char)
    requires sep !in a1 && sep !in a2
    requires a1 + [sep] + b1 == a2 + [sep] + b2
    ensures a1 == a2 && b1 == b2
  {
    var s := a1 + [sep] + b1;
    FirstSeparator(a1, b1, sep);
    FirstSeparator(a2, b2, sep);
    assert |a1| == |a2|;
    assert a1 == s[..|a1|] == a2;
    assert b1 == s[|a1| + 1..] == b2;
  }

  predicate IsDigit(c: char) {
    '0' <= c <= '9'
  }

  function DigitChar(d: nat): (c: char)
    requires d < 10
    ensures IsDigit(c)
  {
    ('0' as int + d) as char
  }

  /** Decimal notation of `n`, as `String(n)` writes a safe integer. */
  function NatToString(n: nat): (r: string)
    ensures |r| >= 1
    ensures forall i :: 0 <= i < |r| ==> IsDigit(r[i])
    ensures r[0] == '0' ==> n == 0
    decreases n
  {
    if n < 10 then [DigitChar(n)] else NatToString(n / 10) + [DigitChar(n % 10)]
  }

  /** The value of a string of decimal digits. */
  function DigitsValue(s: string): nat
    requires forall i :: 0 <= i < |s| ==> IsDigit(s[i])
    decreases |s|
  {
    if s == [] then 0
    else
      assert IsDigit(s[|s| - 1]);
      10 * DigitsValue(s[..|s| - 1]) + (s[|s| - 1] as int - '0' as int)
  }

  /** Reading the decimal notation back gives the number. */
  lemma {:induction false} NatToStringRoundTrip(n: nat)
    ensures DigitsValue(NatToString(n)) == n
    decreases n
  {
    var r := NatToString(n);
    if n >= 10 {
      NatToStringRoundTrip(n / 10);
      assert r[..|r| - 1] == NatToString(n / 10);
    }
  }

  /** Different numbers render differently. */
  lemma NatToStringInjective(m: nat, n: nat)
    requires NatToString(m) == NatToString(n)
    ensures m == n
  {
    NatToStringRoundTrip(m);
    NatToStringRoundTrip(n);
  }

  /** `String(i)` for an integer value. */
  function IntToString(i: int): (r: string)
    ensures |r| >= 1
    ensures (r[0] == '-') <==> i < 0
    ensures i >= 0 ==> (forall k :: 0 <= k < |r| ==> IsDigit(r[k])) && DigitsValue(r) == i
    ensures i < 0 ==> (forall k :: 1 <= k < |r| ==> IsDigit(r[k])) && DigitsValue(r[1..]) == -i
    ensures i >= 0 && |r| > 1 ==> r[0] != '0'
    ensures i < 0 ==> |r| > 1 && r[1] != '0'
  {
    if i < 0 then
      NatToStringRoundTrip(-i);
      assert ("-" + NatToString(-i))[1..] == NatToString(-i);
      "-" + NatToString(-i)
    else
      NatToStringRoundTrip(i);
      NatToString(i)
  }
}
