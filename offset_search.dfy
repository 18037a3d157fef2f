/**
  The offset search of PrepImg.tweakwcs (PrepImg.py lines 241-267): try
  every integer pixel shift xi, yi in range(-3, 3), xi in the outer loop,
  keep the last shift whose match count is at least the best so far, then
  match once more at that shift and align the image only when at least 50
  pairs come back.

  The catalog matcher (TPMatch with its fixed search radius, separation and
  tolerance, applied to the two catalogs and the input WCS) is a parameter:
  a deterministic function from its context `C` and the shift to the matched
  index lists.
*/
module OffsetSearch {

  /** Matched sources: reference indices and input indices, pairwise. */
  datatype MatchResult = MatchResult(refIdx: seq<nat>, inputIdx: seq<nat>)

  /** Both axes range over range(-3, 3): -3 up to 2. */
  const Lo: int := -3
  const Hi: int := 3
  const Side: nat := 6
  const GridSize: nat := 36

  /** Fewer matches than this abandon the alignment (line 263). */
  const MinMatches: nat := 50

  /** The running best (xi_best, yi_best, matches_best). */
  datatype Best = Best(x: int, y: int, matches: nat)

  predicate InGrid(x: int, y: int) { Lo <= x < Hi && Lo <= y < Hi }

  /** Position of a shift in the scan order: xi outer, yi inner, both ascending. */
  function Rank(x: int, y: int): int { (x - Lo) * Side + (y - Lo) }

  /** The shift tried `k`-th. */
  function Cand(k: nat): (c: (int, int))
    requires k < GridSize
    ensures InGrid(c.0, c.1) && Rank(c.0, c.1) == k
  {
    (Lo + k / Side, Lo + k % Side)
  }

  /** len(ridx) for a shift. */
  function Count<C>(matcher: (C, int, int) -> MatchResult, ctx: C, x: int, y: int): nat {
    |matcher(ctx, x, y).refIdx|
  }

  /** One comparison of line 252: `>=` lets a later equal count win. */
  function Consider(b: Best, x: int, y: int, n: nat): Best {
    if n >= b.matches then Best(x, y, n) else b
  }

  /** The running best after the first `n` shifts, from the start state (0, 0, 0). */
  function SearchPrefix<C>(matcher: (C, int, int) -> MatchResult, ctx: C, n: nat): Best
    requires n <= GridSize
  {
    if n == 0 then Best(0, 0, 0)
    else
      var c := Cand(n - 1);
      Consider(SearchPrefix(matcher, ctx, n - 1), c.0, c.1, Count(matcher, ctx, c.0, c.1))
  }

  function BestOffset<C>(matcher: (C, int, int) -> MatchResult, ctx: C): Best {
    SearchPrefix(matcher, ctx, GridSize)
  }

  /**
    `b` is the last maximiser in scan order: a grid shift whose count it
    records, no grid shift counts more, and every shift scanned after it
    counts strictly less.
  */
  ghost predicate IsLastMaximum<C>(matcher: (C, int, int) -> MatchResult, ctx: C, b: Best) {
    && InGrid(b.x, b.y)
    && b.matches == Count(matcher, ctx, b.x, b.y)
    && (forall x, y :: InGrid(x, y) ==> Count(matcher, ctx, x, y) <= b.matches)
    && (forall x, y :: InGrid(x, y) && Rank(x, y) > Rank(b.x, b.y) ==> Count(matcher, ctx, x, y) < b.matches)
  }

  /** The nested loop of lines 242-255. */
  method SearchOffset<C>(matcher: (C, int, int) -> MatchResult, ctx: C) returns (xb: int, yb: int, mb: nat)
    ensures Best(xb, yb, mb) == BestOffset(matcher, ctx)
    ensures IsLastMaximum(matcher, ctx, Best(xb, yb, mb))
  {
    xb, yb, mb := 0, 0, 0;
    for xi := Lo to Hi
      invariant Best(xb, yb, mb) == SearchPrefix(matcher, ctx, Rank(xi, Lo))
    {
      for yi := Lo to Hi
        invariant Best(xb, yb, mb) == SearchPrefix(matcher, ctx, Rank(xi, yi))
      {
        SearchStep(matcher, ctx, xi, yi);
        var m := matcher(ctx, xi, yi);
        if |m.refIdx| >= mb {
          xb, yb, mb := xi, yi, |m.refIdx|;
        }
      }
    }
    BestOffsetIsLastMaximum(matcher, ctx);
  }

  /** What the image's alignment step does after the search. */
  datatype Alignment =
    | Aligned(x: int, y: int, pairs: MatchResult)       // fit_wcs, header update, sci/wht reprojection
    | TooFewMatches(x: int, y: int, found: nat)          // message only; files left as they are

  function Decide<C>(matcher: (C, int, int) -> MatchResult, ctx: C): Alignment {
    var b := BestOffset(matcher, ctx);
    var m := matcher(ctx, b.x, b.y);
    if |m.refIdx| < MinMatches then TooFewMatches(b.x, b.y, |m.refIdx|) else Aligned(b.x, b.y, m)
  }

  /** Lines 242-267: search, match again at the winning shift, apply the threshold. */
  method MatchAtBestOffset<C>(matcher: (C, int, int) -> MatchResult, ctx: C) returns (a: Alignment)
    ensures a == Decide(matcher, ctx)
    ensures a.Aligned? ==> |a.pairs.refIdx| >= MinMatches && a.pairs == matcher(ctx, a.x, a.y)
  {
    var xb, yb, mb := SearchOffset(matcher, ctx);
    var m := matcher(ctx, xb, yb);
    if |m.refIdx| < MinMatches {
      a := TooFewMatches(xb, yb, |m.refIdx|);
    } else {
      a := Aligned(xb, yb, m);
    }
  }

  // ---------------------------------------------------------------------
  // Lemmas

  lemma CandOfRank(x: int, y: int)
    requires InGrid(x, y)
    ensures Rank(x, y) < GridSize && Cand(Rank(x, y)) == (x, y)
  {
  }

  /** One turn of the inner loop extends the running best by the shift it tries. */
  lemma SearchStep<C>(matcher: (C, int, int) -> MatchResult, ctx: C, x: int, y: int)
    requires InGrid(x, y)
    ensures SearchPrefix(matcher, ctx, Rank(x, y) + 1) ==
      Consider(SearchPrefix(matcher, ctx, Rank(x, y)), x, y, Count(matcher, ctx, x, y))
  {
    CandOfRank(x, y);
  }

  lemma {:induction false} SearchPrefixInvariant<C>(matcher: (C, int, int) -> MatchResult, ctx: C, n: nat)
    requires 1 <= n <= GridSize
    ensures var b := SearchPrefix(matcher, ctx, n);
      && InGrid(b.x, b.y) && Rank(b.x, b.y) < n
      && b.matches == Count(matcher, ctx, b.x, b.y)
      && (forall k :: 0 <= k < n ==> Count(matcher, ctx, Cand(k).0, Cand(k).1) <= b.matches)
      && (forall k :: Rank(b.x, b.y) < k < n ==> Count(matcher, ctx, Cand(k).0, Cand(k).1) < b.matches)
  {
    if n > 1 {
      SearchPrefixInvariant(matcher, ctx, n - 1);
    }
  }

  /** The running best after all 36 shifts is the last maximiser over the grid. */
  lemma BestOffsetIsLastMaximum<C>(matcher: (C, int, int) -> MatchResult, ctx: C)
    ensures IsLastMaximum(matcher, ctx, BestOffset(matcher, ctx))
  {
    var b := BestOffset(matcher, ctx);
    SearchPrefixInvariant(matcher, ctx, GridSize);
    forall x, y | InGrid(x, y)
      ensures Count(matcher, ctx, x, y) <= b.matches
      ensures Rank(x, y) > Rank(b.x, b.y) ==> Count(matcher, ctx, x, y) < b.matches
    {
      CandOfRank(x, y);
    }
  }

  lemma RankInjective(x1: int, y1: int, x2: int, y2: int)
    requires InGrid(x1, y1) && InGrid(x2, y2)
    requires Rank(x1, y1) == Rank(x2, y2)
    ensures x1 == x2 && y1 == y2
  {
  }

  /** The last-maximiser property fixes the result: nothing else satisfies it. */
  lemma LastMaximumIsUnique<C>(matcher: (C, int, int) -> MatchResult, ctx: C, b1: Best, b2: Best)
    requires IsLastMaximum(matcher, ctx, b1) && IsLastMaximum(matcher, ctx, b2)
    ensures b1 == b2
  {
    assert b1.matches == b2.matches;
    if Rank(b1.x, b1.y) == Rank(b2.x, b2.y) {
      RankInjective(b1.x, b1.y, b2.x, b2.y);
    }
  }

  /** With every count 0 the last shift tried, (2, 2), is chosen. */
  lemma AllZeroChoosesLastShift<C>(matcher: (C, int, int) -> MatchResult, ctx: C)
    requires forall x, y :: InGrid(x, y) ==> Count(matcher, ctx, x, y) == 0
    ensures BestOffset(matcher, ctx) == Best(2, 2, 0)
  {
    BestOffsetIsLastMaximum(matcher, ctx);
    assert IsLastMaximum(matcher, ctx, Best(2, 2, 0));
    LastMaximumIsUnique(matcher, ctx, BestOffset(matcher, ctx), Best(2, 2, 0));
  }

  /** A shift that strictly beats every other one is recovered, with its count. */
  lemma StrictMaximumRecovered<C>(matcher: (C, int, int) -> MatchResult, ctx: C, x0: int, y0: int)
    requires InGrid(x0, y0)
    requires forall x, y :: InGrid(x, y) && (x, y) != (x0, y0) ==> Count(matcher, ctx, x, y) < Count(matcher, ctx, x0, y0)
    ensures BestOffset(matcher, ctx) == Best(x0, y0, Count(matcher, ctx, x0, y0))
  {
    var b := Best(x0, y0, Count(matcher, ctx, x0, y0));
    BestOffsetIsLastMaximum(matcher, ctx);
    assert IsLastMaximum(matcher, ctx, b);
    LastMaximumIsUnique(matcher, ctx, BestOffset(matcher, ctx), b);
  }

  /** Of two shifts that share the top count, the earlier one in scan order is never chosen. */
  lemma TieGoesToLaterShift<C>(matcher: (C, int, int) -> MatchResult, ctx: C, x1: int, y1: int, x2: int, y2: int)
    requires InGrid(x1, y1) && InGrid(x2, y2) && Rank(x1, y1) < Rank(x2, y2)
    requires Count(matcher, ctx, x1, y1) == Count(matcher, ctx, x2, y2)
    requires forall x, y :: InGrid(x, y) ==> Count(matcher, ctx, x, y) <= Count(matcher, ctx, x1, y1)
    ensures var b := BestOffset(matcher, ctx); (b.x, b.y) != (x1, y1) && Rank(b.x, b.y) >= Rank(x2, y2)
  {
    BestOffsetIsLastMaximum(matcher, ctx);
  }

  /**
    The image is aligned exactly when some shift of the grid reaches 50
    matches; otherwise no shift would have.
  */
  lemma AlignedIffSomeShiftReachesThreshold<C>(matcher: (C, int, int) -> MatchResult, ctx: C)
    ensures Decide(matcher, ctx).Aligned? <==>
      exists x, y :: InGrid(x, y) && Count(matcher, ctx, x, y) >= MinMatches
    ensures Decide(matcher, ctx).Aligned? ==>
      Decide(matcher, ctx).pairs == matcher(ctx, BestOffset(matcher, ctx).x, BestOffset(matcher, ctx).y)
  {
    BestOffsetIsLastMaximum(matcher, ctx);
    var b := BestOffset(matcher, ctx);
    if exists x, y :: InGrid(x, y) && Count(matcher, ctx, x, y) >= MinMatches {
      var x, y :| InGrid(x, y) && Count(matcher, ctx, x, y) >= MinMatches;
      assert Count(matcher, ctx, x, y) <= b.matches;
    }
  }
}
