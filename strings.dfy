/**
  The Python string operations that the pipeline's bookkeeping relies on:
  ASCII lower/upper casing, the substring test `in`, `str.replace` (every
  non-overlapping occurrence, left to right), `os.path.basename` and
  `os.path.join` (POSIX), `str.split()` without arguments, and `str()` of an
  integer.
*/
module Strings {

  predicate IsDigit(c: char) { '0' <= c <= '9' }

  /**
    The characters `str.split()` separates on, those for which Python's
    `str.isspace()` holds: tab to carriage return, the four information
    separators 0x1c-0x1f, space, next line, no-break space, and the Unicode
    space separators.
  */
  predicate IsSpace(c: char) {
    var n := c as int;
    || 0x09 <= n <= 0x0d || 0x1c <= n <= 0x20 || n == 0x85 || n == 0xa0 || n == 0x1680
    || 0x2000 <= n <= 0x200a || n == 0x2028 || n == 0x2029 || n == 0x202f || n == 0x205f || n == 0x3000
  }

  predicate AllSpace(s: string) { forall i :: 0 <= i < |s| ==> IsSpace(s[i]) }

  predicate NoSpace(s: string) { forall i :: 0 <= i < |s| ==> !IsSpace(s[i]) }

  function LowerChar(c: char): char {
    if 'A' <= c <= 'Z' then (c as int + 32) as char else c
  }

  function UpperChar(c: char): char {
    if 'a' <= c <= 'z' then (c as int - 32) as char else c
  }

  function Lower(s: string): string {
    seq(|s|, i requires 0 <= i < |s| => LowerChar(s[i]))
  }

  function Upper(s: string): string {
    seq(|s|, i requires 0 <= i < |s| => UpperChar(s[i]))
  }

  predicate StartsWith(s: string, p: string) { |p| <= |s| && s[..|p|] == p }

  predicate EndsWith(s: string, p: string) { |p| <= |s| && s[|s| - |p|..] == p }

  /** Python's `p in s` for strings. */
  predicate Contains(s: string, p: string)
    decreases |s|
  {
    StartsWith(s, p) || (s != [] && Contains(s[1..], p))
  }

  /**
    Python's `s.replace(pat, rep)`: every occurrence, left to right, without
    overlaps; an empty pattern puts `rep` before every character and at the end.
  */
  function ReplaceAll(s: string, pat: string, rep: string): string
    decreases |s|
  {
    if pat == [] then
      (if s == [] then rep else rep + [s[0]] + ReplaceAll(s[1..], pat, rep))
    else if s == [] then []
    else if StartsWith(s, pat) then rep + ReplaceAll(s[|pat|..], pat, rep)
    else [s[0]] + ReplaceAll(s[1..], pat, rep)
  }

  /** `os.path.basename`: everything after the last '/'. */
  function Basename(p: string): (b: string)
    ensures '/' !in b
    ensures EndsWith(p, b)
    ensures |b| == |p| || p[|p| - |b| - 1] == '/'
  {
    if p == [] then []
    else if p[|p| - 1] == '/' then []
    else Basename(p[..|p| - 1]) + [p[|p| - 1]]
  }

  /** `os.path.join(a, b)` on POSIX. */
  function PathJoin(a: string, b: string): string {
    if StartsWith(b, "/") then b
    else if a == [] || EndsWith(a, "/") then a + b
    else a + "/" + b
  }

  /** The longest prefix of `s` that holds no whitespace. */
  function TakeWord(s: string): (w: string)
    ensures |w| <= |s| && w == s[..|w|]
    ensures NoSpace(w)
    ensures |w| < |s| ==> IsSpace(s[|w|])
    ensures s != [] && !IsSpace(s[0]) ==> |w| >= 1
  {
    if s == [] || IsSpace(s[0]) then [] else [s[0]] + TakeWord(s[1..])
  }

  /** Python's `s.split()`: the maximal runs of non-whitespace, in order. */
  function SplitWs(s: string): (r: seq<string>)
    ensures forall k :: 0 <= k < |r| ==> r[k] != [] && NoSpace(r[k])
    decreases |s|
  {
    if s == [] then []
    else if IsSpace(s[0]) then SplitWs(s[1..])
    else
      var w := TakeWord(s);
      [w] + SplitWs(s[|w|..])
  }

  /** The words joined by single spaces, `' '.join(ts)`. */
  function JoinSpaced(ts: seq<string>): string {
    if ts == [] then []
    else if |ts| == 1 then ts[0]
    else ts[0] + " " + JoinSpaced(ts[1..])
  }

  function DigitChar(d: nat): char
    requires d < 10
  {
    ('0' as int + d) as char
  }

  /** The number a string of decimal digits spells. */
  function DecValue(s: string): nat
    requires forall i :: 0 <= i < |s| ==> IsDigit(s[i])
  {
    if s == [] then 0
    else
      assert IsDigit(s[|s| - 1]);
      10 * DecValue(s[..|s| - 1]) + (s[|s| - 1] as int - '0' as int)
  }

  /** `str(n)` for a non-negative integer: its decimal digits, without leading zeros. */
  function NatToStr(n: nat): (s: string)
    ensures |s| >= 1
    ensures forall i :: 0 <= i < |s| ==> IsDigit(s[i])
    ensures (|s| == 1) == (n < 10)
    ensures |s| > 1 ==> s[0] != '0'
  {
    if n < 10 then [DigitChar(n)]
    else
      var s := NatToStr(n / 10) + [DigitChar(n % 10)];
      assert s[..|s| - 1] == NatToStr(n / 10);
      s
  }

  /** `str(i)` for an integer: a minus sign before the digits of a negative one. */
  function IntToStr(i: int): string {
    if i < 0 then "-" + NatToStr(-i) else NatToStr(i)
  }

  // ---------------------------------------------------------------------
  // Lemmas

  /** Concatenation regrouped; a separate step keeps larger proofs small. */
  lemma ConcatAssoc<T>(a: seq<T>, b: seq<T>, c: seq<T>)
    ensures a + (b + c) == (a + b) + c
  {
  }

  lemma LowerAppend(a: string, b: string)
    ensures Lower(a + b) == Lower(a) + Lower(b)
  {
    assert forall i :: 0 <= i < |a + b| ==> Lower(a + b)[i] == (Lower(a) + Lower(b))[i];
  }

  /** Upper-casing twice changes nothing more. */
  lemma UpperIdempotent(s: string)
    ensures Upper(Upper(s)) == Upper(s)
  {
  }

  /** `replace` leaves a string without the pattern as it is. */
  lemma {:induction false} ReplaceAllAbsent(s: string, pat: string, rep: string)
    requires pat != []
    requires !Contains(s, pat)
    ensures ReplaceAll(s, pat, rep) == s
    decreases |s|
  {
    if s != [] {
      ReplaceAllAbsent(s[1..], pat, rep);
      assert [s[0]] + s[1..] == s;
    }
  }

  /** A string lacking one of the pattern's characters does not hold the pattern. */
  lemma {:induction false} MissingCharNotContained(s: string, pat: string, j: nat)
    requires j < |pat| && forall i :: 0 <= i < |s| ==> s[i] != pat[j]
    ensures !Contains(s, pat)
    decreases |s|
  {
    if |pat| <= |s| {
      assert s[..|pat|][j] == s[j];
    }
    if s != [] {
      MissingCharNotContained(s[1..], pat, j);
    }
  }

  /** A replacement at least as long as the pattern never shortens the string. */
  lemma {:induction false} ReplaceAllNotShorter(s: string, pat: string, rep: string)
    requires pat != [] && |rep| >= |pat|
    ensures |ReplaceAll(s, pat, rep)| >= |s|
    decreases |s|
  {
    if s != [] {
      if StartsWith(s, pat) {
        ReplaceAllNotShorter(s[|pat|..], pat, rep);
      } else {
        ReplaceAllNotShorter(s[1..], pat, rep);
      }
    }
  }

  /** A longer replacement lengthens every string that holds the pattern. */
  lemma {:induction false} ReplaceAllGrows(s: string, pat: string, rep: string)
    requires pat != [] && |rep| > |pat| && Contains(s, pat)
    ensures |ReplaceAll(s, pat, rep)| > |s|
    decreases |s|
  {
    if StartsWith(s, pat) {
      ReplaceAllNotShorter(s[|pat|..], pat, rep);
    } else {
      ReplaceAllGrows(s[1..], pat, rep);
    }
  }

  /** With a longer replacement, `s.replace(pat, rep)` is `s` itself exactly when `pat` is not in `s`. */
  lemma ReplaceAllUnchangedIff(s: string, pat: string, rep: string)
    requires pat != [] && |rep| > |pat|
    ensures ReplaceAll(s, pat, rep) == s <==> !Contains(s, pat)
  {
    if Contains(s, pat) {
      ReplaceAllGrows(s, pat, rep);
    } else {
      ReplaceAllAbsent(s, pat, rep);
    }
  }

  /**
    For a pattern whose first character does not recur in it (".fits",
    ".txt"), replacing in `p + pat`, where `p` does not hold the pattern,
    rewrites exactly the trailing occurrence.
  */
  lemma {:induction false} ReplaceAllAtEnd(p: string, pat: string, rep: string)
    requires pat != []
    requires forall j :: 0 < j < |pat| ==> pat[j] != pat[0]
    requires !Contains(p, pat)
    ensures ReplaceAll(p + pat, pat, rep) == p + rep
    decreases |p|
  {
    var s := p + pat;
    if p == [] {
      assert s == pat && StartsWith(s, pat);
      assert s[|pat|..] == [];
    } else {
      assert !StartsWith(s, pat) by {
        if |p| >= |pat| {
          assert s[..|pat|] == p[..|pat|];
        } else {
          assert s[|p|] == pat[0];
        }
      }
      assert s[1..] == p[1..] + pat;
      ReplaceAllAtEnd(p[1..], pat, rep);
      assert [p[0]] + (p[1..] + rep) == p + rep;
    }
  }

  /**
    For a pattern whose first character does not recur in it, `replace` on
    `p + pat` rewrites `p` as usual and the trailing occurrence with it.
  */
  lemma {:induction false} ReplaceAllTrailing(p: string, pat: string, rep: string)
    requires pat != []
    requires forall j :: 0 < j < |pat| ==> pat[j] != pat[0]
    ensures ReplaceAll(p + pat, pat, rep) == ReplaceAll(p, pat, rep) + rep
    decreases |p|
  {
    var s := p + pat;
    if p == [] {
      assert s == pat && StartsWith(s, pat);
      assert s[|pat|..] == [];
    } else {
      if |p| < |pat| {
        // the occurrence would have to start inside p and put pat[0] at pat[|p|]
        assert s[..|pat|][|p|] == pat[0] != pat[|p|];
      } else {
        assert s[..|pat|] == p[..|pat|];
      }
      if StartsWith(p, pat) {
        assert s[|pat|..] == p[|pat|..] + pat;
        ReplaceAllTrailing(p[|pat|..], pat, rep);
        ConcatAssoc(rep, ReplaceAll(p[|pat|..], pat, rep), rep);
      } else {
        assert s[1..] == p[1..] + pat;
        ReplaceAllTrailing(p[1..], pat, rep);
        ConcatAssoc([p[0]], ReplaceAll(p[1..], pat, rep), rep);
      }
    }
  }

  lemma BasenameSnoc(q: string, c: char)
    requires c != '/'
    ensures Basename(q + [c]) == Basename(q) + [c]
  {
    assert (q + [c])[..|q + [c]| - 1] == q;
  }

  /** A basename ends with whatever slash-free text the path ends with. */
  lemma {:induction false} BasenameAppend(p: string, x: string)
    requires '/' !in x
    ensures Basename(p + x) == Basename(p) + x
    decreases |x|
  {
    if x == [] {
      assert p + x == p;
    } else {
      var y, c := x[..|x| - 1], x[|x| - 1];
      assert x == y + [c];
      assert p + x == (p + y) + [c];
      assert forall i :: 0 <= i < |y| ==> y[i] == x[i];
      BasenameAppend(p, y);
      BasenameSnoc(p + y, c);
      ConcatAssoc(Basename(p), y, [c]);
    }
  }

  /** Appending to the second part of a relative join appends to the joined path. */
  lemma PathJoinAppend(a: string, b: string, c: string)
    requires b != []
    ensures PathJoin(a, b + c) == PathJoin(a, b) + c
  {
    assert (b + c)[..1] == b[..1];
    if StartsWith(b, "/") {
    } else if a == [] || EndsWith(a, "/") {
    } else {
      assert a + "/" + (b + c) == (a + "/" + b) + c;
    }
  }

  lemma {:induction false} TakeWordOfPrefix(w: string, rest: string)
    requires NoSpace(w)
    requires rest == [] || IsSpace(rest[0])
    ensures TakeWord(w + rest) == w
    decreases |w|
  {
    if w == [] {
      assert w + rest == rest;
    } else {
      assert (w + rest)[1..] == w[1..] + rest;
      TakeWordOfPrefix(w[1..], rest);
      assert [w[0]] + w[1..] == w;
    }
  }

  lemma SplitWsOfPrefix(w: string, rest: string)
    requires w != [] && NoSpace(w)
    requires rest == [] || IsSpace(rest[0])
    ensures SplitWs(w + rest) == [w] + SplitWs(rest)
  {
    TakeWordOfPrefix(w, rest);
    assert (w + rest)[|w|..] == rest;
  }

  /** A leading whitespace character splits into nothing. */
  lemma SplitWsSkipsSpace(c: char, s: string)
    requires IsSpace(c)
    ensures SplitWs([c] + s) == SplitWs(s)
  {
    assert ([c] + s)[1..] == s;
  }

  /** Trailing whitespace, such as the newline `readlines()` keeps, splits into nothing. */
  lemma {:induction false} SplitWsAllSpace(t: string)
    requires AllSpace(t)
    ensures SplitWs(t) == []
    decreases |t|
  {
    if t != [] {
      assert AllSpace(t[1..]) by {
        forall i | 0 <= i < |t[1..]| ensures IsSpace(t[1..][i]) {
          assert t[1..][i] == t[i + 1];
        }
      }
      SplitWsAllSpace(t[1..]);
    }
  }

  /**
    `split()` undoes `' '.join` on words that are non-empty and hold no
    whitespace, whatever whitespace ends the line.
  */
  lemma {:induction false} SplitJoinSpaced(ts: seq<string>, tail: string)
    requires forall k :: 0 <= k < |ts| ==> ts[k] != [] && NoSpace(ts[k])
    requires AllSpace(tail)
    ensures SplitWs(JoinSpaced(ts) + tail) == ts
    decreases |ts|
  {
    if ts == [] {
      assert JoinSpaced(ts) + tail == tail;
      SplitWsAllSpace(tail);
    } else if |ts| == 1 {
      SplitWsOfPrefix(ts[0], tail);
      SplitWsAllSpace(tail);
    } else {
      var more := JoinSpaced(ts[1..]) + tail;
      var rest := " " + more;
      assert JoinSpaced(ts) + tail == ts[0] + rest;
      SplitWsOfPrefix(ts[0], rest);
      SplitWsSkipsSpace(' ', more);
      SplitJoinSpaced(ts[1..], tail);
      assert [ts[0]] + ts[1..] == ts;
    }
  }

  /** The digits of `str(n)` read back as `n`. */
  lemma {:induction false} NatToStrValue(n: nat)
    ensures DecValue(NatToStr(n)) == n
  {
    if n >= 10 {
      var s := NatToStr(n);
      NatToStrValue(n / 10);
      assert s[..|s| - 1] == NatToStr(n / 10);
    }
  }

  /** Distinct non-negative integers print differently. */
  lemma NatToStrInjective(a: nat, b: nat)
    requires NatToStr(a) == NatToStr(b)
    ensures a == b
  {
    NatToStrValue(a);
    NatToStrValue(b);
  }

  /** Distinct integers print differently (`str` on the object ids). */
  lemma IntToStrInjective(a: int, b: int)
    requires IntToStr(a) == IntToStr(b)
    ensures a == b
  {
    assert IntToStr(a)[0] == '-' <==> a < 0;
    assert IntToStr(b)[0] == '-' <==> b < 0;
    if a < 0 {
      assert NatToStr(-a) == IntToStr(a)[1..];
      NatToStrInjective(-a, -b);
    } else {
      NatToStrInjective(a, b);
    }
  }
}
