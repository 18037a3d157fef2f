/**
  The filter-token scan of PrepImg.__init__ (PrepImg.py lines 57-62 and
  91-95): walk the lower-cased basename left to right and stop at the first
  'f' that is followed by a digit and, four places on, by 'w' or 'm'. The
  lookup four places on is made before the digit test and raises IndexError
  when it falls off the end of the name.
*/
module FilterToken {
  import opened Strings

  predicate IsBand(c: char) { c == 'w' || c == 'm' }

  /** The test of line 59 at a position where the lookup at `i + 4` is in range. */
  predicate TokenAt(s: string, i: nat)
    requires i + 4 < |s|
  {
    s[i] == 'f' && IsBand(s[i + 4]) && IsDigit(s[i + 1])
  }

  /** The scan ends at `i`: the test succeeds there, or its lookup at `i + 4` overruns. */
  predicate StopsAt(s: string, i: nat)
    requires i < |s|
  {
    s[i] == 'f' && (i + 4 >= |s| || TokenAt(s, i))
  }

  /** How the scan ends: a token at `start`, no token, or IndexError at the 'f' at `at`. */
  datatype Scan = Found(start: nat) | NotFound | Overrun(at: nat)

  /** The scan from position `i` on, as a reference definition. */
  function FindFrom(s: string, i: nat): (r: Scan)
    requires i <= |s|
    ensures r.Found? ==>
      i <= r.start && r.start + 4 < |s| && TokenAt(s, r.start) &&
      forall j :: i <= j < r.start ==> !StopsAt(s, j)
    ensures r.Overrun? ==>
      i <= r.at < |s| && s[r.at] == 'f' && r.at + 4 >= |s| &&
      forall j :: i <= j < r.at ==> !StopsAt(s, j)
    ensures r.NotFound? ==> forall j :: i <= j < |s| ==> !StopsAt(s, j)
    decreases |s| - i
  {
    if i == |s| then NotFound
    else if s[i] == 'f' && i + 4 >= |s| then Overrun(i)
    else if s[i] == 'f' && TokenAt(s, i) then Found(i)
    else FindFrom(s, i + 1)
  }

  function Find(s: string): Scan { FindFrom(s, 0) }

  /** The five characters of a found token, upper-cased (line 60). */
  function TokenName(s: string, i: nat): (t: string)
    requires i + 4 < |s| && TokenAt(s, i)
    ensures |t| == 5 && t[0] == 'F' && IsDigit(t[1]) && (t[4] == 'W' || t[4] == 'M')
  {
    Upper(s[i..i + 5])
  }

  /** A filter name is upper-case already: upper-casing it again changes nothing. */
  lemma TokenNameIsUpper(s: string, i: nat)
    requires i + 4 < |s| && TokenAt(s, i)
    ensures Upper(TokenName(s, i)) == TokenName(s, i)
  {
    UpperIdempotent(s[i..i + 5]);
  }

  /** The loop of lines 58-62: an indexed scan that breaks at the first token. */
  method ScanForFilter(s: string) returns (r: Scan)
    ensures r == Find(s)
  {
    r := NotFound;
    var i := 0;
    while i < |s|
      invariant 0 <= i <= |s|
      invariant FindFrom(s, i) == Find(s)
    {
      if s[i] == 'f' {
        if i + 4 >= |s| {
          // the lookup lowercase_img[i+4] raises IndexError
          return Overrun(i);
        }
        if (s[i + 4] == 'w' || s[i + 4] == 'm') && IsDigit(s[i + 1]) {
          r := Found(i);
          break;
        }
      }
      i := i + 1;
    }
  }

  /** A name ending in ".fits" never leaves the scan without a verdict: the 'f' of the extension stops it. */
  lemma FitsNameAlwaysStops(s: string)
    requires EndsWith(s, ".fits")
    ensures !Find(s).NotFound?
  {
    var j := |s| - 4;
    assert s[j] == ".fits"[1] == 'f';
    assert StopsAt(s, j);
  }

  /**
    A name `p + ".fits"` whose stem holds no token raises IndexError at the
    'f' of ".fits".
  */
  lemma FitsNameWithoutTokenOverruns(p: string)
    requires forall j :: 0 <= j < |p| ==> !StopsAt(p + ".fits", j)
    ensures Find(p + ".fits") == Overrun(|p| + 1)
  {
    var s := p + ".fits";
    assert s[|p|] == '.' && s[|p| + 1] == 'f';
    assert StopsAt(s, |p| + 1);
    var r := FindFrom(s, 0);
    assert |s| == |p| + 5;
    if r.Found? {
      if r.start < |p| {
        assert StopsAt(s, r.start);
      }
      assert false;
    }
    assert !r.NotFound?;
    if r.Overrun? {
      assert r.at < |p| || r.at == |p| || r.at == |p| + 1;
    }
  }
}
