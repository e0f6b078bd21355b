/** String helpers with the semantics of JavaScript's and Python's string methods. */
module Text {

  /** `s.startsWith(p)` / `s.startswith(p)`. */
  predicate StartsWith(s: string, p: string) {
    |p| <= |s| && s[..|p|] == p
  }

  /** `s.includes(sub)` / `sub in s`. */
  predicate Contains(s: string, sub: string)
    decreases |s|
  {
    StartsWith(s, sub) || (|s| > 0 && Contains(s[1..], sub))
  }

  /** `parts.join(sep)` / `sep.join(parts)`. */
  function Join(parts: seq<string>, sep: string): (r: string)
    ensures |parts| == 1 ==> r == parts[0]
    ensures |parts| == 0 ==> r == ""
  {
    if |parts| == 0 then ""
    else if |parts| == 1 then parts[0]
    else parts[0] + sep + Join(parts[1..], sep)
  }

  /** The first part, then the separator and the join of the others. */
  lemma JoinFirst(parts: seq<string>, sep: string)
    requires |parts| >= 2
    ensures Join(parts, sep) == parts[0] + (sep + Join(parts[1..], sep))
  {
    assert parts[0] + sep + Join(parts[1..], sep) == parts[0] + (sep + Join(parts[1..], sep));
  }

  /** `s.split(c)` for a one-character separator: at least one part. */
  function Split(s: string, c: char): (r: seq<string>)
    ensures |r| >= 1
  {
    if s == [] then [[]]
    else if s[0] == c then [[]] + Split(s[1..], c)
    else
      var rest := Split(s[1..], c);
      [[s[0]] + rest[0]] + rest[1..]
  }

  /** No part of `s.split(c)` contains `c`. */
  lemma {:induction false} SplitPartsFree(s: string, c: char)
    ensures forall k, j | 0 <= k < |Split(s, c)| && 0 <= j < |Split(s, c)[k]| :: Split(s, c)[k][j] != c
  {
    if s != [] {
      SplitPartsFree(s[1..], c);
      var rest := Split(s[1..], c);
      if s[0] != c {
        var r := Split(s, c);
        assert r == [[s[0]] + rest[0]] + rest[1..];
        forall k, j | 0 <= k < |r| && 0 <= j < |r[k]| ensures r[k][j] != c {
          if k == 0 {
            if j > 0 { assert r[0][j] == rest[0][j - 1]; }
          } else {
            assert r[k] == rest[k];
          }
        }
      }
    }
  }

  /** Number of occurrences of `c` in `s`. */
  function Count(s: string, c: char): nat {
    if s == [] then 0 else (if s[0] == c then 1 else 0) + Count(s[1..], c)
  }

  /** The characters Python's `str.isspace()` and the `\s` class of `re` accept. */
  predicate IsPySpace(c: char) {
    c == ' ' || ('\U{0009}' <= c <= '\U{000D}') || ('\U{001C}' <= c <= '\U{001F}')
    || c == '\U{0085}' || c == '\U{00A0}' || c == '\U{1680}' || ('\U{2000}' <= c <= '\U{200A}')
    || c == '\U{2028}' || c == '\U{2029}' || c == '\U{202F}' || c == '\U{205F}' || c == '\U{3000}'
  }

  /** `not s.strip()` in Python: empty or whitespace only. */
  predicate IsBlank(s: string) {
    forall k | 0 <= k < |s| :: IsPySpace(s[k])
  }

  /** Python's `s.strip()`: no leading or trailing whitespace, empty exactly for a blank text. */
  function PyStrip(s: string): (r: string)
    ensures r == [] || (!IsPySpace(r[0]) && !IsPySpace(r[|r| - 1]))
    ensures r == [] <==> IsBlank(s)
  {
    PyStripEnd(PyStripStart(s))
  }

  function PyStripStart(s: string): (r: string)
    ensures r == [] || !IsPySpace(r[0])
    ensures r == [] <==> IsBlank(s)
  {
    if s != [] && IsPySpace(s[0]) then PyStripStart(s[1..]) else s
  }

  function PyStripEnd(s: string): (r: string)
    ensures r == [] || !IsPySpace(r[|r| - 1])
    ensures r == [] <==> IsBlank(s)
    ensures r != [] ==> r[0] == s[0]
  {
    if s != [] && IsPySpace(s[|s| - 1]) then PyStripEnd(s[..|s| - 1]) else s
  }

  /**
   * `s.strip()` is `s` with only white space cut from its ends: a slice of `s` with nothing but
   * white space before and after it.
   */
  lemma PyStripSlice(s: string)
    ensures exists a, b | 0 <= a <= b <= |s| :: PyStrip(s) == s[a..b] && IsBlank(s[..a]) && IsBlank(s[b..])
  {
    var t := PyStripStart(s);
    var r := PyStripEnd(t);
    PyStripStartDrops(s);
    PyStripEndDrops(t);
    var a := |s| - |t|;
    var b := a + |r|;
    assert r == s[a..b] by {
      assert t == s[a..];
      assert r == t[..|r|];
    }
    assert IsBlank(s[b..]) by {
      assert s[b..] == t[|r|..];
    }
  }

  /** `lstrip` keeps a suffix and cuts only white space. */
  lemma {:induction false} PyStripStartDrops(s: string)
    ensures var t := PyStripStart(s); |t| <= |s| && t == s[|s| - |t|..] && IsBlank(s[..|s| - |t|])
    decreases |s|
  {
    if s != [] && IsPySpace(s[0]) {
      var t := PyStripStart(s);
      PyStripStartDrops(s[1..]);
      assert s[1..][|s| - 1 - |t|..] == s[|s| - |t|..];
      var cut := s[..|s| - |t|];
      forall k | 0 <= k < |cut| ensures IsPySpace(cut[k]) {
        if k > 0 { assert cut[k] == s[1..][..|s| - 1 - |t|][k - 1]; }
      }
    }
  }

  /** `rstrip` keeps a prefix and cuts only white space. */
  lemma {:induction false} PyStripEndDrops(s: string)
    ensures var t := PyStripEnd(s); |t| <= |s| && t == s[..|t|] && IsBlank(s[|t|..])
    decreases |s|
  {
    if s != [] && IsPySpace(s[|s| - 1]) {
      var t := PyStripEnd(s);
      var init := s[..|s| - 1];
      PyStripEndDrops(init);
      assert init[..|t|] == s[..|t|];
      var cut := s[|t|..];
      forall k | 0 <= k < |cut| ensures IsPySpace(cut[k]) {
        if |t| + k < |s| - 1 { assert cut[k] == init[|t|..][k]; }
      }
    }
  }

  predicate IsAsciiDigit(c: char) { '0' <= c <= '9' }

  /** Python's `s.isdigit()`, for ASCII digits. */
  predicate IsDigits(s: string) {
    |s| > 0 && forall k | 0 <= k < |s| :: IsAsciiDigit(s[k])
  }

  /** Python's `int(s)` on a string of ASCII digits. */
  function DigitsValue(s: string): nat
    requires forall k | 0 <= k < |s| :: IsAsciiDigit(s[k])
  {
    if s == [] then 0
    else
      assert IsAsciiDigit(s[|s| - 1]);
      DigitsValue(s[..|s| - 1]) * 10 + (s[|s| - 1] as int - '0' as int)
  }

  /** Decimal text of an integer, as JavaScript's `String(n)` writes a safe integer. */
  function IntToString(n: int): (r: string)
    ensures |r| >= 1
  {
    if n < 0 then "-" + NatToString(-n) else NatToString(n)
  }

  function NatToString(n: nat): (r: string)
    ensures |r| >= 1
    ensures forall k | 0 <= k < |r| :: IsAsciiDigit(r[k])
  {
    if n < 10 then [('0' as int + n) as char]
    else NatToString(n / 10) + [('0' as int + n % 10) as char]
  }

  lemma {:induction false} SplitJoin(s: string, c: char)
    ensures Join(Split(s, c), [c]) == s
  {
    if s == [] {
    } else if s[0] == c {
      SplitJoin(s[1..], c);
      assert s == [c] + s[1..];
    } else {
      SplitJoin(s[1..], c);
      var rest := Split(s[1..], c);
      if |rest| == 1 {
      } else {
        assert Join(rest, [c]) == rest[0] + [c] + Join(rest[1..], [c]);
        assert ([[s[0]] + rest[0]] + rest[1..])[1..] == rest[1..];
      }
      assert s == [s[0]] + s[1..];
    }
  }

  lemma {:induction false} CountAppend(a: string, b: string, c: char)
    ensures Count(a + b, c) == Count(a, c) + Count(b, c)
  {
    if a != [] {
      assert (a + b)[1..] == a[1..] + b;
      CountAppend(a[1..], b, c);
    } else {
      assert a + b == b;
    }
  }

  lemma {:induction false} CountAbsent(s: string, c: char)
    requires forall k | 0 <= k < |s| :: s[k] != c
    ensures Count(s, c) == 0
  {
    if s != [] { CountAbsent(s[1..], c); }
  }
}
