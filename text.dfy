/**
 * The string operations of Python's `str` type that the transcript parser
 * relies on: `strip()`, `split(sep)` and `split(sep, 1)[1]`.
 * Strings are sequences of Unicode code points.
 */
module Text {

  /** Python's `str.isspace()` for a single code point. */
  predicate IsSpace(c: char) {
    var n := c as int;
    (9 <= n <= 13) || (28 <= n <= 32) || n == 0x85 || n == 0xA0 || n == 0x1680
    || (0x2000 <= n <= 0x200A) || n == 0x2028 || n == 0x2029 || n == 0x202F
    || n == 0x205F || n == 0x3000
  }

  predicate AllSpace(s: string) {
    forall k :: 0 <= k < |s| ==> IsSpace(s[k])
  }

  /** Neither end of `s` is whitespace. */
  predicate IsStripped(s: string) {
    s == [] || (!IsSpace(s[0]) && !IsSpace(s[|s| - 1]))
  }

  /** `s.lstrip()`: drops the longest all-whitespace prefix. */
  function LStrip(s: string): (r: string)
    ensures |r| <= |s|
    ensures r != [] ==> !IsSpace(r[0])
  {
    if s != [] && IsSpace(s[0]) then LStrip(s[1..]) else s
  }

  /** `lstrip()` keeps a suffix of `s` and drops whitespace only. */
  lemma {:induction false} LStripDropsSpace(s: string)
    ensures LStrip(s) == s[|s| - |LStrip(s)|..]
    ensures AllSpace(s[..|s| - |LStrip(s)|])
  {
    if s != [] && IsSpace(s[0]) {
      LStripDropsSpace(s[1..]);
      assert s[|s| - |LStrip(s)|..] == s[1..][|s[1..]| - |LStrip(s[1..])|..];
      assert s[..|s| - |LStrip(s)|] == [s[0]] + s[1..][..|s[1..]| - |LStrip(s[1..])|];
    }
  }

  /** `s.rstrip()`: drops the longest all-whitespace suffix. */
  function RStrip(s: string): (r: string)
    ensures |r| <= |s|
    ensures r != [] ==> !IsSpace(r[|r| - 1])
  {
    if s != [] && IsSpace(s[|s| - 1]) then RStrip(s[..|s| - 1]) else s
  }

  /** `rstrip()` keeps a prefix of `s` and drops whitespace only. */
  lemma {:induction false} RStripDropsSpace(s: string)
    ensures RStrip(s) == s[..|RStrip(s)|]
    ensures AllSpace(s[|RStrip(s)|..])
  {
    if s != [] && IsSpace(s[|s| - 1]) {
      var s' := s[..|s| - 1];
      RStripDropsSpace(s');
      assert s[..|RStrip(s)|] == s'[..|RStrip(s')|];
      assert s[|RStrip(s)|..] == s'[|RStrip(s')|..] + [s[|s| - 1]];
    }
  }

  /** `s.strip()`: no whitespace is left at either end. */
  function Strip(s: string): (r: string)
    ensures IsStripped(r) && |r| <= |s|
  {
    RStripDropsSpace(LStrip(s));
    RStrip(LStrip(s))
  }

  /**
   * What `strip()` keeps is what remains of `s` once a whitespace prefix and
   * a whitespace suffix are removed.
   */
  lemma StripKeepsMiddle(s: string)
    ensures exists i :: (0 <= i <= |s| - |Strip(s)| && s[i..i + |Strip(s)|] == Strip(s)
      && AllSpace(s[..i]) && AllSpace(s[i + |Strip(s)|..]))
  {
    var t := LStrip(s);
    var r := RStrip(t);
    assert r == Strip(s);
    LStripDropsSpace(s);
    RStripDropsSpace(t);
    var i := |s| - |t|;
    assert t == s[i..] && r == t[..|r|];
    assert s[i..][..|r|] == s[i..i + |r|];
    assert s[i + |r|..] == t[|r|..];
  }

  lemma {:induction false} LStripSpacePrefix(w: string, t: string)
    requires AllSpace(w)
    ensures LStrip(w + t) == LStrip(t)
    decreases |w|
  {
    if w == [] {
      assert w + t == t;
    } else {
      assert (w + t)[0] == w[0] && (w + t)[1..] == w[1..] + t;
      LStripSpacePrefix(w[1..], t);
    }
  }

  lemma {:induction false} RStripSpaceSuffix(t: string, w: string)
    requires AllSpace(w)
    ensures RStrip(t + w) == RStrip(t)
    decreases |w|
  {
    if w == [] {
      assert t + w == t;
    } else {
      assert (t + w)[|t + w| - 1] == w[|w| - 1];
      assert (t + w)[..|t + w| - 1] == t + w[..|w| - 1];
      RStripSpaceSuffix(t, w[..|w| - 1]);
    }
  }

  /** `strip()` removes exactly the surrounding whitespace and nothing else. */
  lemma StripSurrounded(w1: string, t: string, w2: string)
    requires AllSpace(w1) && AllSpace(w2) && IsStripped(t)
    ensures Strip(w1 + t + w2) == t
  {
    assert w1 + t + w2 == w1 + (t + w2);
    LStripSpacePrefix(w1, t + w2);
    if t == [] {
      assert t + w2 == w2 + [];
      LStripSpacePrefix(w2, []);
      assert LStrip(t + w2) == [];
    } else {
      assert (t + w2)[0] == t[0];
      assert LStrip(t + w2) == t + w2;
      RStripSpaceSuffix(t, w2);
      assert RStrip(t) == t;
    }
  }

  /** Stripping twice is stripping once. */
  lemma StripIdempotent(s: string)
    ensures Strip(Strip(s)) == Strip(s)
  {
    StripSurrounded([], Strip(s), []);
    assert [] + Strip(s) + [] == Strip(s);
  }

  /** Python's `sep.join(parts)`, the inverse of `split`. */
  function Join(parts: seq<string>, sep: char): string
    requires |parts| >= 1
  {
    if |parts| == 1 then parts[0] else parts[0] + [sep] + Join(parts[1..], sep)
  }

  /**
   * Python's `s.split(sep)` for a one-character separator: at least one piece,
   * no piece contains the separator, and joining the pieces gives `s` back.
   */
  function Split(s: string, sep: char): (parts: seq<string>)
    ensures |parts| >= 1
    ensures forall k :: 0 <= k < |parts| ==> sep !in parts[k]
    ensures Join(parts, sep) == s
  {
    if s == [] then [[]]
    else
      var rest := Split(s[1..], sep);
      if s[0] == sep then
        assert ([[]] + rest)[1..] == rest;
        [[]] + rest
      else
        var parts := [[s[0]] + rest[0]] + rest[1..];
        assert |rest| > 1 ==> Join(rest, sep) == rest[0] + [sep] + Join(rest[1..], sep);
        assert parts[1..] == rest[1..];
        assert s == [s[0]] + s[1..];
        parts
  }

  lemma {:induction false} SplitNoSeparator(s: string, sep: char)
    requires sep !in s
    ensures Split(s, sep) == [s]
  {
    if s != [] {
      SplitNoSeparator(s[1..], sep);
      assert [s[0]] + s[1..] == s;
    }
  }

  /** Splitting at a separator: the text before it is the first piece. */
  lemma {:induction false} SplitAtSeparator(a: string, sep: char, b: string)
    requires sep !in a
    ensures Split(a + [sep] + b, sep) == [a] + Split(b, sep)
  {
    if a == [] {
      assert a + [sep] + b == [sep] + b;
      assert ([sep] + b)[1..] == b;
    } else {
      assert (a + [sep] + b)[1..] == a[1..] + [sep] + b;
      SplitAtSeparator(a[1..], sep, b);
      assert [a[0]] + a[1..] == a;
    }
  }

  /** `split` undoes `join` when no piece holds the separator. */
  lemma {:induction false} SplitJoin(parts: seq<string>, sep: char)
    requires |parts| >= 1
    requires forall k :: 0 <= k < |parts| ==> sep !in parts[k]
    ensures Split(Join(parts, sep), sep) == parts
  {
    if |parts| == 1 {
      SplitNoSeparator(parts[0], sep);
    } else {
      SplitJoin(parts[1..], sep);
      SplitAtSeparator(parts[0], sep, Join(parts[1..], sep));
      assert [parts[0]] + parts[1..] == parts;
    }
  }

  /**
   * Python's `s.split(c, 1)[1]`: what follows the first occurrence of `c`.
   * The source only takes it after checking that `c in s`.
   */
  function AfterFirst(s: string, c: char): (r: string)
    requires c in s
    ensures |r| < |s|
  {
    if s[0] == c then s[1..] else AfterFirst(s[1..], c)
  }

  /**
   * `split(c, 1)[1]` is the suffix of `s` that follows an occurrence of `c`
   * with no `c` before it.
   */
  lemma {:induction false} AfterFirstSplits(s: string, c: char)
    requires c in s
    ensures var r := AfterFirst(s, c);
      r == s[|s| - |r|..] && s[|s| - |r| - 1] == c && c !in s[..|s| - |r| - 1]
  {
    if s[0] == c {
      assert s[..0] == [];
    } else {
      var t := s[1..];
      assert c in t by {
        var k :| 0 <= k < |s| && s[k] == c;
        assert t[k - 1] == c;
      }
      AfterFirstSplits(t, c);
      var r := AfterFirst(t, c);
      var n := |s| - |r|;
      assert t[|t| - |r|..] == s[n..];
      assert t[|t| - |r| - 1] == s[n - 1];
      assert s[..n - 1] == [s[0]] + t[..|t| - |r| - 1];
    }
  }

  /** Only the first `c` splits: later occurrences stay in the result. */
  lemma {:induction false} AfterFirstOf(p: string, c: char, q: string)
    requires c !in p
    ensures AfterFirst(p + [c] + q, c) == q
  {
    if p == [] {
      assert p + [c] + q == [c] + q;
    } else {
      assert (p + [c] + q)[1..] == p[1..] + [c] + q;
      AfterFirstOf(p[1..], c, q);
    }
  }
}
