/**
  The bookkeeping of the PrepImg class (PrepImg.py): how __init__ turns the
  discovered images into the lists `filts`, `sci_img` and `wht_img` and the
  file pattern `imfile`, how `bkgsub` names its outputs, and how `tweakwcs`
  picks the reference filter, pairs catalogs with filters and runs the
  offset search for every other filter.

  FITS reading and writing, header updates, zeropoint arithmetic,
  reprojection, background estimation and SExtractor are not modelled; the
  lists of paths the code builds around them are.
*/
module PrepImg {
  import opened Wrappers
  import opened Strings
  import opened FilterToken
  import opened OffsetSearch

  // ---------------------------------------------------------------------
  // __init__: splitting or reading the images

  /** The exceptions __init__ can raise on its own account. */
  datatype InitError =
    | FilterLookupOverrun(image: string, at: nat) // IndexError of the scan's lookup at i+4 (lines 59, 93)
    | FilterUnbound(image: string)                // `filt` read before any image assigned it (lines 71, 99)
    | NoPatternImage                              // sci_img[0] or filts[0] of an empty list (line 105)
    | NoZeropoints                                // max() of no zeropoints (line 122)
    | CopyOntoItself(image: string)               // shutil.SameFileError: no ".fits" to replace, so the copy is the file (lines 87-88)

  /** The three lists, and the local `filt`, which keeps its value from one image to the next. */
  datatype Lists = Lists(filts: seq<string>, sci: seq<string>, wht: seq<string>, filt: Option<string>)

  /** One image handled: the lists after it, or the lists when the exception was raised. */
  datatype Step = Next(st: Lists) | Stop(st: Lists, err: InitError)

  const Empty: Lists := Lists([], [], [], None)

  /** The name the filter scan reads: the basename of the lower-cased path (lines 57, 91). */
  function ScanName(path: string): string { Basename(Lower(path)) }

  /** `{image_dir}/{field}_{filt}_{extension}.fits` (line 71). */
  function OutputName(dir: string, field: string, filt: string, ext: string): string {
    PathJoin(dir, field + "_" + filt + "_" + ext + ".fits")
  }

  /** The file pattern set on line 27. */
  function DefaultPattern(field: string): string { field + "_*_sci.fits" }

  /** The name of the working copy of a sci or wht input (line 87). */
  function PrepName(path: string): string { ReplaceAll(path, ".fits", "_prep.fits") }

  predicate IsSciPath(p: string) { Contains(Lower(p), "sci") || Contains(Lower(p), "drz") }

  predicate IsWhtPath(p: string) { Contains(Lower(p), "wht") }

  /** One iteration of the i2d loop (lines 57-76). */
  function SplitStep(dir: string, field: string, st: Lists, image: string): Step {
    var name := ScanName(image);
    match FindFrom(name, 0)
    case Overrun(j) => Stop(st, FilterLookupOverrun(image, j))
    case Found(i) =>
      var f := TokenName(name, i);
      Next(Lists(st.filts + [f], st.sci + [OutputName(dir, field, f, "sci")],
                 st.wht + [OutputName(dir, field, f, "wht")], Some(f)))
    case NotFound =>
      if st.filt.None? then Stop(st, FilterUnbound(image))
      else
        var f := st.filt.value;
        Next(Lists(st.filts, st.sci + [OutputName(dir, field, f, "sci")],
                   st.wht + [OutputName(dir, field, f, "wht")], st.filt))
  }

  /** The `filt` in force after scanning `name`: its token, or the one from before. */
  function FiltAfter(prev: Option<string>, name: string): Option<string> {
    var scan := FindFrom(name, 0);
    if scan.Found? then Some(TokenName(name, scan.start)) else prev
  }

  /** One iteration of the loop over separate sci and wht images (lines 87-102). */
  function ReadStep(st: Lists, image: string): Step {
    var prep := PrepName(image);
    var name := ScanName(prep);
    var scan := FindFrom(name, 0);
    if prep == image then Stop(st, CopyOntoItself(image))
    else if scan.Overrun? then Stop(st, FilterLookupOverrun(prep, scan.at))
    else
      var f := FiltAfter(st.filt, name);
      if IsSciPath(prep) then
        if f.None? then Stop(Lists(st.filts, st.sci + [prep], st.wht, f), FilterUnbound(prep))
        else Next(Lists(st.filts + [f.value], st.sci + [prep], st.wht, f))
      else if IsWhtPath(prep) then Next(Lists(st.filts, st.sci, st.wht + [prep], f))
      else Next(Lists(st.filts, st.sci, st.wht, f))
  }

  function StepFor(i2d: bool, dir: string, field: string, st: Lists, image: string): Step {
    if i2d then SplitStep(dir, field, st, image) else ReadStep(st, image)
  }

  /** The lists after a run of the loop, and the exception that ended it early, if any. */
  datatype Loaded = Loaded(lists: Lists, err: Option<InitError>)

  function Run(i2d: bool, dir: string, field: string, st: Lists, images: seq<string>): Loaded
    decreases |images|
  {
    if images == [] then Loaded(st, None)
    else
      match StepFor(i2d, dir, field, st, images[0])
      case Stop(s, e) => Loaded(s, Some(e))
      case Next(s) => Run(i2d, dir, field, s, images[1..])
  }

  /** What __init__ leaves behind: the lists, the file pattern and the exception raised, if any. */
  datatype Initialized = Initialized(lists: Lists, imfile: string, err: Option<InitError>)

  function Init(i2d: bool, dir: string, field: string, images: seq<string>): Initialized {
    var run := Run(i2d, dir, field, Empty, images);
    var ls := run.lists;
    if run.err.Some? then Initialized(ls, DefaultPattern(field), run.err)
    else if !i2d && (ls.sci == [] || ls.filts == []) then Initialized(ls, DefaultPattern(field), Some(NoPatternImage))
    else
      var imfile := if i2d then DefaultPattern(field) else ReplaceAll(ls.sci[0], ls.filts[0], "*");
      if ls.sci == [] then Initialized(ls, imfile, Some(NoZeropoints))
      else Initialized(ls, imfile, None)
  }

  // ---------------------------------------------------------------------
  // bkgsub

  /** The background-subtracted copy of a science image (line 164). */
  function BkgName(p: string): string { ReplaceAll(p, ".fits", "_bkgsub.fits") }

  function BkgNames(ps: seq<string>): seq<string> {
    seq(|ps|, j requires 0 <= j < |ps| => BkgName(ps[j]))
  }

  // ---------------------------------------------------------------------
  // tweakwcs

  /** The exceptions tweakwcs can raise on its own account. */
  datatype TweakError =
    | NoFilters                     // filts[0] of an empty list (line 180)
    | RefFilterAbsent(name: string) // ValueError of list.index (line 185)
    | NoRefImage(idx: nat)          // sci_img[ref_idx] (line 205)
    | NoRefCatalog(idx: nat)        // cats[ref_idx] (line 211)
    | NoInputImage(idx: nat)        // sci_img[idx] (line 226)
    | NoWeightImage(idx: nat)       // wht_img[idx] (line 227)
    | NoInputCatalog(idx: nat)      // cats[idx] (line 234)

  /** `xs.index(x)`: the first position holding `x`. */
  function IndexOf(xs: seq<string>, x: string): (r: Option<nat>)
    ensures r.Some? ==> r.value < |xs| && xs[r.value] == x && forall j :: 0 <= j < r.value ==> xs[j] != x
    ensures r.None? ==> x !in xs
  {
    if xs == [] then None
    else if xs[0] == x then Some(0)
    else match IndexOf(xs[1..], x)
      case None => None
      case Some(i) => Some(i + 1)
  }

  /** Lines 178-185: the reference filter's index. */
  function RefIndex(filts: seq<string>, refFilt: Option<string>): (r: Result<nat, TweakError>)
    ensures r.Success? ==> r.value < |filts|
    ensures refFilt.None? ==> (r.Success? <==> filts != []) && (r.Success? ==> r.value == 0)
    ensures refFilt.Some? ==> (r.Success? <==> Upper(refFilt.value) in filts)
    ensures refFilt.Some? && r.Success? ==>
      filts[r.value] == Upper(refFilt.value) && forall j :: 0 <= j < r.value ==> filts[j] != Upper(refFilt.value)
  {
    match refFilt
    case None => if filts == [] then Failure(NoFilters) else Success(0)
    case Some(name) =>
      match IndexOf(filts, Upper(name))
      case None => Failure(RefFilterAbsent(Upper(name)))
      case Some(i) => Success(i)
  }

  /** The catalog files whose names hold `f`, in the order the glob gave them. */
  function MatchingCats(f: string, cs: seq<string>): (r: seq<string>)
    ensures |r| <= |cs|
    ensures forall k :: 0 <= k < |r| ==> Contains(r[k], f) && r[k] in cs
  {
    if cs == [] then []
    else
      var last := cs[|cs| - 1];
      MatchingCats(f, cs[..|cs| - 1]) + (if Contains(last, f) then [last] else [])
  }

  /** Lines 198-202: the catalogs of every filter, filter by filter. */
  function CatalogsFor(fs: seq<string>, cs: seq<string>): seq<string> {
    if fs == [] then []
    else CatalogsFor(fs[..|fs| - 1], cs) + MatchingCats(Upper(fs[|fs| - 1]), cs)
  }

  /** The catalogs attached to a filter are exactly the files whose names hold it. */
  lemma {:induction false} MatchingCatsExactly(f: string, cs: seq<string>)
    ensures forall x :: x in MatchingCats(f, cs) <==> x in cs && Contains(x, f)
    decreases |cs|
  {
    if cs != [] {
      var init, last := cs[..|cs| - 1], cs[|cs| - 1];
      assert cs == init + [last];
      MatchingCatsExactly(f, init);
    }
  }

  lemma MatchingCatsStep(f: string, cs: seq<string>, j: nat)
    requires j < |cs|
    ensures MatchingCats(f, cs[..j + 1]) == MatchingCats(f, cs[..j]) + (if Contains(cs[j], f) then [cs[j]] else [])
  {
    assert cs[..j + 1][..j] == cs[..j];
  }

  lemma CatalogsForStep(fs: seq<string>, cs: seq<string>, i: nat)
    requires i < |fs|
    ensures CatalogsFor(fs[..i + 1], cs) == CatalogsFor(fs[..i], cs) + MatchingCats(Upper(fs[i]), cs)
  {
    assert fs[..i + 1][..i] == fs[..i];
  }

  /** What the matcher is given besides the shift: the reference catalog, the input catalog and the input image's WCS. */
  datatype Pairing = Pairing(refCat: string, inputCat: string, inputImage: string)

  /** The outcome of the alignment of the filter at `idx`. */
  datatype ImageResult = ImageResult(idx: nat, filt: string, alignment: Alignment)

  datatype Tweaked = Tweaked(results: seq<ImageResult>, err: Option<TweakError>)

  /** Lines 218-280 from index `idx` on. */
  function AlignFrom(filts: seq<string>, sci: seq<string>, wht: seq<string>, cats: seq<string>, ref: nat,
                     matcher: (Pairing, int, int) -> MatchResult, idx: nat): Tweaked
    requires ref < |cats|
    decreases |filts| - idx
  {
    if idx >= |filts| then Tweaked([], None)
    else if idx == ref then AlignFrom(filts, sci, wht, cats, ref, matcher, idx + 1)
    else if idx >= |sci| then Tweaked([], Some(NoInputImage(idx)))
    else if idx >= |wht| then Tweaked([], Some(NoWeightImage(idx)))
    else if idx >= |cats| then Tweaked([], Some(NoInputCatalog(idx)))
    else
      var a := Decide(matcher, Pairing(cats[ref], cats[idx], sci[idx]));
      var rest := AlignFrom(filts, sci, wht, cats, ref, matcher, idx + 1);
      Tweaked([ImageResult(idx, filts[idx], a)] + rest.results, rest.err)
  }

  /** tweakwcs as a whole, after SExtractor has written the catalogs `catFiles`. */
  function Tweak(filts: seq<string>, sci: seq<string>, wht: seq<string>, refFilt: Option<string>,
                 catFiles: seq<string>, matcher: (Pairing, int, int) -> MatchResult): Tweaked
  {
    match RefIndex(filts, refFilt)
    case Failure(e) => Tweaked([], Some(e))
    case Success(ref) =>
      var cats := CatalogsFor(filts, catFiles);
      if ref >= |sci| then Tweaked([], Some(NoRefImage(ref)))
      else if ref >= |cats| then Tweaked([], Some(NoRefCatalog(ref)))
      else AlignFrom(filts, sci, wht, cats, ref, matcher, 0)
  }

  /** The position of the `j`-th image handled from `start` on, stepping over `ref`. */
  function VisitIndex(start: nat, j: nat, ref: nat): nat {
    if start <= ref <= start + j then start + j + 1 else start + j
  }

  /** The loop of lines 218-280: every filter but the reference, in ascending order. */
  method AlignEach(filts: seq<string>, sci: seq<string>, wht: seq<string>, cats: seq<string>, ref: nat,
                   matcher: (Pairing, int, int) -> MatchResult)
    returns (results: seq<ImageResult>, err: Option<TweakError>)
    requires ref < |cats|
    ensures Tweaked(results, err) == AlignFrom(filts, sci, wht, cats, ref, matcher, 0)
  {
    results := [];
    for idx := 0 to |filts|
      invariant var rest := AlignFrom(filts, sci, wht, cats, ref, matcher, idx);
        AlignFrom(filts, sci, wht, cats, ref, matcher, 0) == Tweaked(results + rest.results, rest.err)
    {
      if idx == ref {
        continue;
      }
      if idx >= |sci| {
        err := Some(NoInputImage(idx));
        return;
      }
      if idx >= |wht| {
        err := Some(NoWeightImage(idx));
        return;
      }
      if idx >= |cats| {
        err := Some(NoInputCatalog(idx));
        return;
      }
      var a := MatchAtBestOffset(matcher, Pairing(cats[ref], cats[idx], sci[idx]));
      var next := AlignFrom(filts, sci, wht, cats, ref, matcher, idx + 1);
      assert AlignFrom(filts, sci, wht, cats, ref, matcher, idx).results == [ImageResult(idx, filts[idx], a)] + next.results;
      ConcatAssoc(results, [ImageResult(idx, filts[idx], a)], next.results);
      results := results + [ImageResult(idx, filts[idx], a)];
    }
    err := None;
  }

  // ---------------------------------------------------------------------
  // Lemmas: __init__

  /** The filter read from an image whose name holds a token. */
  function TokenOf(image: string): string
    requires FindFrom(ScanName(image), 0).Found?
  {
    TokenName(ScanName(image), FindFrom(ScanName(image), 0).start)
  }

  /** The filters of the images, in order, when every image's name holds a token. */
  function Tokens(images: seq<string>): Option<seq<string>> {
    if images == [] then Some([])
    else
      var scan := FindFrom(ScanName(images[0]), 0);
      var rest := Tokens(images[1..]);
      if scan.Found? && rest.Some? then Some([TokenOf(images[0])] + rest.value) else None
  }

  /** The output names of a list of filters for one extension. */
  function Outputs(dir: string, field: string, fs: seq<string>, ext: string): seq<string> {
    if fs == [] then [] else [OutputName(dir, field, fs[0], ext)] + Outputs(dir, field, fs[1..], ext)
  }

  /** What an i2d step appends for the filter `f` (lines 66-76). */
  function AppendOne(dir: string, field: string, st: Lists, f: string): Lists {
    Lists(st.filts + [f], st.sci + [OutputName(dir, field, f, "sci")],
          st.wht + [OutputName(dir, field, f, "wht")], Some(f))
  }

  /** AppendOne for each filter in turn. */
  function AppendAll(dir: string, field: string, st: Lists, fs: seq<string>): Lists
    decreases |fs|
  {
    if fs == [] then st else AppendAll(dir, field, AppendOne(dir, field, st, fs[0]), fs[1..])
  }

  lemma SplitStepFound(dir: string, field: string, st: Lists, image: string)
    requires FindFrom(ScanName(image), 0).Found?
    ensures SplitStep(dir, field, st, image) == Next(AppendOne(dir, field, st, TokenOf(image)))
  {
  }

  /** A run goes on from the state a successful step leaves. */
  lemma RunNext(i2d: bool, dir: string, field: string, st: Lists, images: seq<string>, next: Lists)
    requires images != [] && StepFor(i2d, dir, field, st, images[0]) == Next(next)
    ensures Run(i2d, dir, field, st, images) == Run(i2d, dir, field, next, images[1..])
  {
  }

  lemma {:induction false} RunSplitAll(dir: string, field: string, st: Lists, images: seq<string>)
    requires Tokens(images).Some?
    ensures Run(true, dir, field, st, images) == Loaded(AppendAll(dir, field, st, Tokens(images).value), None)
    decreases |images|
  {
    if images != [] {
      var f := TokenOf(images[0]);
      var next := AppendOne(dir, field, st, f);
      SplitStepFound(dir, field, st, images[0]);
      RunNext(true, dir, field, st, images, next);
      RunSplitAll(dir, field, next, images[1..]);
      var ts := Tokens(images).value;
      assert ts == [f] + Tokens(images[1..]).value;
      assert ts[0] == f && ts[1..] == Tokens(images[1..]).value;
    }
  }

  lemma {:induction false} AppendAllLists(dir: string, field: string, st: Lists, fs: seq<string>)
    ensures var r := AppendAll(dir, field, st, fs);
      && r.filts == st.filts + fs
      && r.sci == st.sci + Outputs(dir, field, fs, "sci")
      && r.wht == st.wht + Outputs(dir, field, fs, "wht")
    decreases |fs|
  {
    if fs != [] {
      AppendAllLists(dir, field, AppendOne(dir, field, st, fs[0]), fs[1..]);
      assert (st.filts + [fs[0]]) + fs[1..] == st.filts + fs;
    }
  }

  /**
    In i2d mode, when every image's name holds a token, each image appends
    exactly its filter, `{dir}/{field}_{FILT}_sci.fits` and
    `{dir}/{field}_{FILT}_wht.fits`, in input order, and nothing fails.
  */
  lemma SplitAppendsOneEntryPerImage(dir: string, field: string, st: Lists, images: seq<string>)
    requires Tokens(images).Some?
    ensures var r := Run(true, dir, field, st, images); var ts := Tokens(images).value;
      && r.err.None?
      && r.lists.filts == st.filts + ts
      && r.lists.sci == st.sci + Outputs(dir, field, ts, "sci")
      && r.lists.wht == st.wht + Outputs(dir, field, ts, "wht")
  {
    RunSplitAll(dir, field, st, images);
    AppendAllLists(dir, field, st, Tokens(images).value);
  }

  /** The scanned name of a path ending in ".fits" (any case) ends in ".fits". */
  lemma ScanNameOfFitsPath(image: string)
    requires EndsWith(Lower(image), ".fits")
    ensures EndsWith(ScanName(image), ".fits")
  {
    var low := Lower(image);
    var q := low[..|low| - 5];
    assert low == q + ".fits";
    BasenameAppend(q, ".fits");
  }

  /**
    In i2d mode, inputs named `*.fits` never reuse a stale filter: unless the
    scan raises, each input adds one entry to each of filts, sci_img and
    wht_img.
  */
  lemma {:induction false} FitsInputsKeepListsInStep(dir: string, field: string, st: Lists, images: seq<string>)
    requires forall k :: 0 <= k < |images| ==> EndsWith(Lower(images[k]), ".fits")
    ensures var r := Run(true, dir, field, st, images);
      r.err.None? ==>
        && |r.lists.filts| == |st.filts| + |images|
        && |r.lists.sci| == |st.sci| + |images|
        && |r.lists.wht| == |st.wht| + |images|
    decreases |images|
  {
    if images != [] {
      ScanNameOfFitsPath(images[0]);
      FitsNameAlwaysStops(ScanName(images[0]));
      match StepFor(true, dir, field, st, images[0])
      case Stop(_, _) =>
      case Next(next) =>
        forall k | 0 <= k < |images[1..]| ensures EndsWith(Lower(images[1..][k]), ".fits") {
          assert images[1..][k] == images[k + 1];
        }
        FitsInputsKeepListsInStep(dir, field, next, images[1..]);
    }
  }

  /** The sci images of the read mode: the working copies whose lower-cased path holds 'sci' or 'drz'. */
  function SciOf(images: seq<string>): seq<string> {
    if images == [] then []
    else (if IsSciPath(PrepName(images[0])) then [PrepName(images[0])] else []) + SciOf(images[1..])
  }

  /** The wht images of the read mode: the other copies whose lower-cased path holds 'wht'. */
  function WhtOf(images: seq<string>): seq<string> {
    if images == [] then []
    else
      var p := PrepName(images[0]);
      (if !IsSciPath(p) && IsWhtPath(p) then [p] else []) + WhtOf(images[1..])
  }

  /** What one read-mode step adds, when it raises nothing. */
  lemma ReadStepAppends(st: Lists, image: string)
    ensures var p := PrepName(image);
      ReadStep(st, image).Next? ==>
        var next := ReadStep(st, image).st;
        && next.sci == st.sci + (if IsSciPath(p) then [p] else [])
        && next.wht == st.wht + (if !IsSciPath(p) && IsWhtPath(p) then [p] else [])
        && |next.filts| == |st.filts| + (if IsSciPath(p) then 1 else 0)
  {
  }

  /** The lists after read-mode steps, each taken from the state the previous one left. */
  function ReadLists(st: Lists, images: seq<string>): Lists
    decreases |images|
  {
    if images == [] then st else ReadLists(ReadStep(st, images[0]).st, images[1..])
  }

  /** No read-mode step raises. */
  predicate ReadsCleanly(st: Lists, images: seq<string>)
    decreases |images|
  {
    images == [] || (ReadStep(st, images[0]).Next? && ReadsCleanly(ReadStep(st, images[0]).st, images[1..]))
  }

  lemma {:induction false} RunReadLists(st: Lists, images: seq<string>)
    ensures var r := Run(false, "", "", st, images);
      r.err.None? ==> ReadsCleanly(st, images) && r.lists == ReadLists(st, images)
    decreases |images|
  {
    if images != [] {
      var step := ReadStep(st, images[0]);
      if step.Next? {
        RunNext(false, "", "", st, images, step.st);
        RunReadLists(step.st, images[1..]);
      } else {
        RunStop(false, "", "", st, images);
      }
    }
  }

  lemma {:induction false} ReadListsClassify(st: Lists, images: seq<string>)
    requires ReadsCleanly(st, images)
    ensures var r := ReadLists(st, images);
      && r.sci == st.sci + SciOf(images)
      && r.wht == st.wht + WhtOf(images)
      && |r.filts| == |st.filts| + |SciOf(images)|
    decreases |images|
  {
    if images != [] {
      var p := PrepName(images[0]);
      var next := ReadStep(st, images[0]).st;
      var sp: seq<string> := if IsSciPath(p) then [p] else [];
      var wp: seq<string> := if !IsSciPath(p) && IsWhtPath(p) then [p] else [];
      ReadStepAppends(st, images[0]);
      assert next.sci == st.sci + sp && next.wht == st.wht + wp && |next.filts| == |st.filts| + |sp|;
      ReadListsClassify(next, images[1..]);
      assert SciOf(images) == sp + SciOf(images[1..]);
      assert WhtOf(images) == wp + WhtOf(images[1..]);
      ConcatAssoc(st.sci, sp, SciOf(images[1..]));
      ConcatAssoc(st.wht, wp, WhtOf(images[1..]));
    }
  }

  /**
    In read mode a run that raises nothing classifies every working copy:
    sci copies go to sci_img with one filter each, the remaining wht copies
    to wht_img, all in input order, and everything else is dropped.
  */
  lemma ReadClassifiesEveryImage(st: Lists, images: seq<string>)
    ensures var r := Run(false, "", "", st, images);
      r.err.None? ==>
        && r.lists.sci == st.sci + SciOf(images)
        && r.lists.wht == st.wht + WhtOf(images)
        && |r.lists.filts| == |st.filts| + |SciOf(images)|
  {
    RunReadLists(st, images);
    if Run(false, "", "", st, images).err.None? {
      ReadListsClassify(st, images);
    }
  }

  /** Every image's working copy has a name on which the filter scan stops: a token, or the overrunning lookup. */
  predicate CopyScansStop(images: seq<string>) {
    forall k :: 0 <= k < |images| ==> !FindFrom(ScanName(PrepName(images[k])), 0).NotFound?
  }

  /** The filters of the read mode's sci copies, each scanned from the copy's own name. */
  function SciFilts(images: seq<string>): seq<string> {
    if images == [] then []
    else
      var p := PrepName(images[0]);
      (if IsSciPath(p) && FindFrom(ScanName(p), 0).Found? then [TokenOf(p)] else []) + SciFilts(images[1..])
  }

  /**
    A read-mode step whose scan finds a token raises only when the copy would
    be the file itself, and otherwise appends that token for a sci copy.
  */
  lemma ReadStepOwnFilter(st: Lists, image: string)
    requires FindFrom(ScanName(PrepName(image)), 0).Found?
    ensures var p := PrepName(image);
      && (ReadStep(st, image).Next? <==> p != image)
      && (p != image ==> ReadStep(st, image).st.filts == st.filts + (if IsSciPath(p) then [TokenOf(p)] else []))
  {
    var p := PrepName(image);
    var name := ScanName(p);
    assert TokenOf(p) == TokenName(name, FindFrom(name, 0).start);
  }

  lemma {:induction false} ReadListsFilts(st: Lists, images: seq<string>)
    requires ReadsCleanly(st, images) && CopyScansStop(images)
    ensures ReadLists(st, images).filts == st.filts + SciFilts(images)
    decreases |images|
  {
    if images != [] {
      var p := PrepName(images[0]);
      var next := ReadStep(st, images[0]).st;
      assert !FindFrom(ScanName(p), 0).NotFound?;
      assert FindFrom(ScanName(p), 0).Found?;
      ReadStepOwnFilter(st, images[0]);
      var fp: seq<string> := if IsSciPath(p) then [TokenOf(p)] else [];
      assert next.filts == st.filts + fp;
      assert CopyScansStop(images[1..]) by {
        forall k | 0 <= k < |images[1..]| ensures !FindFrom(ScanName(PrepName(images[1..][k])), 0).NotFound? {
          assert images[1..][k] == images[k + 1];
        }
      }
      ReadListsFilts(next, images[1..]);
      assert SciFilts(images) == fp + SciFilts(images[1..]);
      ConcatAssoc(st.filts, fp, SciFilts(images[1..]));
    }
  }

  /**
    When every copy's scan stops, a read-mode run that raises nothing
    appends, for each sci copy in order, the filter scanned from its own name.
  */
  lemma ReadAppendsOwnFilters(st: Lists, images: seq<string>)
    requires CopyScansStop(images)
    ensures var r := Run(false, "", "", st, images);
      r.err.None? ==> r.lists.filts == st.filts + SciFilts(images) && r.lists.sci == st.sci + SciOf(images)
  {
    RunReadLists(st, images);
    if Run(false, "", "", st, images).err.None? {
      ReadListsFilts(st, images);
      ReadListsClassify(st, images);
    }
  }

  /** The working copy of a `*.fits` file is a `*.fits` file, in any case. */
  lemma PrepNameOfFitsPath(image: string)
    requires EndsWith(image, ".fits")
    ensures EndsWith(Lower(PrepName(image)), ".fits")
  {
    var q := image[..|image| - 5];
    assert image == q + ".fits";
    ReplaceAllTrailing(q, ".fits", "_prep.fits");
    var r := ReplaceAll(q, ".fits", "_prep.fits");
    assert PrepName(image) == (r + "_prep") + ".fits";
    LowerAppend(r + "_prep", ".fits");
    assert Lower(".fits") == ".fits";
  }

  /**
    Read-mode inputs named `*.fits` never take a stale filter: a run that
    raises nothing gives every sci copy the filter in its own name.
  */
  lemma ReadFitsInputsUseOwnFilter(st: Lists, images: seq<string>)
    requires forall k :: 0 <= k < |images| ==> EndsWith(images[k], ".fits")
    ensures var r := Run(false, "", "", st, images);
      r.err.None? ==> r.lists.filts == st.filts + SciFilts(images) && r.lists.sci == st.sci + SciOf(images)
  {
    forall k | 0 <= k < |images| ensures !FindFrom(ScanName(PrepName(images[k])), 0).NotFound? {
      PrepNameOfFitsPath(images[k]);
      ScanNameOfFitsPath(PrepName(images[k]));
      FitsNameAlwaysStops(ScanName(PrepName(images[k])));
    }
    ReadAppendsOwnFilters(st, images);
  }

  /** The filters recorded, and the one in force, are upper-case. */
  predicate UpperFilters(st: Lists) {
    && (forall k :: 0 <= k < |st.filts| ==> Upper(st.filts[k]) == st.filts[k])
    && (st.filt.Some? ==> Upper(st.filt.value) == st.filt.value)
  }

  lemma AppendUpper(fs: seq<string>, f: string)
    requires forall k :: 0 <= k < |fs| ==> Upper(fs[k]) == fs[k]
    requires Upper(f) == f
    ensures forall k :: 0 <= k < |fs + [f]| ==> Upper((fs + [f])[k]) == (fs + [f])[k]
  {
    forall k | 0 <= k < |fs + [f]| ensures Upper((fs + [f])[k]) == (fs + [f])[k] {
      if k < |fs| {
        assert (fs + [f])[k] == fs[k];
      }
    }
  }

  /** An i2d step keeps the filters and the one in force, or appends its own token and puts it in force. */
  lemma SplitStepShape(dir: string, field: string, st: Lists, image: string)
    ensures var name := ScanName(image);
      var next := SplitStep(dir, field, st, image).st;
      || (next.filts == st.filts && next.filt == st.filt)
      || (FindFrom(name, 0).Found? &&
          var f := TokenName(name, FindFrom(name, 0).start);
          next.filts == st.filts + [f] && next.filt == Some(f))
  {
    match FindFrom(ScanName(image), 0)
    case Overrun(_) =>
    case NotFound =>
    case Found(_) =>
  }

  lemma SplitStepKeepsUpperFilters(dir: string, field: string, st: Lists, image: string)
    requires UpperFilters(st)
    ensures UpperFilters(SplitStep(dir, field, st, image).st)
  {
    var name := ScanName(image);
    SplitStepShape(dir, field, st, image);
    if FindFrom(name, 0).Found? {
      var f := TokenName(name, FindFrom(name, 0).start);
      TokenNameIsUpper(name, FindFrom(name, 0).start);
      AppendUpper(st.filts, f);
    }
  }

  /** A read-mode step keeps the filters or appends the one in force, and leaves that one in force unless it raises. */
  lemma ReadStepShape(st: Lists, image: string)
    ensures var f := FiltAfter(st.filt, ScanName(PrepName(image)));
      var next := ReadStep(st, image).st;
      && (next.filts == st.filts || (f.Some? && next.filts == st.filts + [f.value]))
      && (next.filt == st.filt || next.filt == f)
  {
    var prep := PrepName(image);
    if prep == image {
    } else if FindFrom(ScanName(prep), 0).Overrun? {
    } else if IsSciPath(prep) {
    } else if IsWhtPath(prep) {
    } else {
    }
  }

  lemma ReadStepKeepsUpperFilters(st: Lists, image: string)
    requires UpperFilters(st)
    ensures UpperFilters(ReadStep(st, image).st)
  {
    var name := ScanName(PrepName(image));
    var f := FiltAfter(st.filt, name);
    if FindFrom(name, 0).Found? {
      TokenNameIsUpper(name, FindFrom(name, 0).start);
    }
    assert f.Some? ==> Upper(f.value) == f.value;
    ReadStepShape(st, image);
    if f.Some? {
      AppendUpper(st.filts, f.value);
    }
  }

  lemma StepKeepsUpperFilters(i2d: bool, dir: string, field: string, st: Lists, image: string)
    requires UpperFilters(st)
    ensures UpperFilters(StepFor(i2d, dir, field, st, image).st)
  {
    if i2d {
      SplitStepKeepsUpperFilters(dir, field, st, image);
    } else {
      ReadStepKeepsUpperFilters(st, image);
    }
  }

  lemma {:induction false} RunKeepsUpperFilters(i2d: bool, dir: string, field: string, st: Lists, images: seq<string>)
    requires UpperFilters(st)
    ensures UpperFilters(Run(i2d, dir, field, st, images).lists)
    decreases |images|
  {
    if images != [] {
      StepKeepsUpperFilters(i2d, dir, field, st, images[0]);
      match StepFor(i2d, dir, field, st, images[0])
      case Stop(_, _) =>
      case Next(next) =>
        RunNext(i2d, dir, field, st, images, next);
        RunKeepsUpperFilters(i2d, dir, field, next, images[1..]);
    }
  }

  /**
    Every filter __init__ records is upper-case in either mode, so the
    `.upper()` that tweakwcs applies to it before the catalog test leaves it
    as it is.
  */
  lemma InitFiltersAreUpper(i2d: bool, dir: string, field: string, images: seq<string>)
    ensures var fs := Init(i2d, dir, field, images).lists.filts;
      forall k :: 0 <= k < |fs| ==> Upper(fs[k]) == fs[k]
  {
    RunKeepsUpperFilters(i2d, dir, field, Empty, images);
  }

  /** A run ends with the exception of a step that raises. */
  lemma RunStop(i2d: bool, dir: string, field: string, st: Lists, images: seq<string>)
    requires images != [] && StepFor(i2d, dir, field, st, images[0]).Stop?
    ensures Run(i2d, dir, field, st, images).err.Some?
  {
  }

  /**
    After a successful read-mode __init__ filts and sci_img have the same
    length; when the upper-cased filter does not occur verbatim in the first
    sci path (a lower-case file name), the remade pattern is that path itself.
  */
  lemma ReadInitPattern(dir: string, field: string, images: seq<string>)
    ensures var r := Init(false, dir, field, images);
      r.err.None? ==>
        && |r.lists.filts| == |r.lists.sci| > 0
        && (!Contains(r.lists.sci[0], r.lists.filts[0]) && r.lists.filts[0] != [] ==> r.imfile == r.lists.sci[0])
  {
    var run := Run(false, dir, field, Empty, images);
    assert run == Run(false, "", "", Empty, images) by {
      RunReadIgnoresNames(dir, field, Empty, images);
    }
    ReadClassifiesEveryImage(Empty, images);
    var r := Init(false, dir, field, images);
    if r.err.None? && !Contains(r.lists.sci[0], r.lists.filts[0]) && r.lists.filts[0] != [] {
      ReplaceAllAbsent(r.lists.sci[0], r.lists.filts[0], "*");
    }
  }

  /** The read mode does not look at the directory or the field. */
  lemma {:induction false} RunReadIgnoresNames(dir: string, field: string, st: Lists, images: seq<string>)
    ensures Run(false, dir, field, st, images) == Run(false, "", "", st, images)
    decreases |images|
  {
    if images != [] {
      match ReadStep(st, images[0])
      case Stop(_, _) =>
      case Next(next) => RunReadIgnoresNames(dir, field, next, images[1..]);
    }
  }

  // ---------------------------------------------------------------------
  // Lemmas: file names

  /**
    `shutil.copy` onto itself: a read-mode step raises `SameFileError`, with
    the lists as they were, exactly when the path holds no ".fits" in that
    case (an upper-case `.FITS`, a `.fit`), since then the `_prep` name is
    the path itself.
  */
  lemma CopyOntoItselfIff(st: Lists, image: string)
    ensures ReadStep(st, image) == Stop(st, CopyOntoItself(image)) <==> !Contains(image, ".fits")
  {
    ReplaceAllUnchangedIff(image, ".fits", "_prep.fits");
  }

  /** An upper-case extension: `x_f200w_sci.FITS` is copied onto itself, and nothing is appended. */
  lemma UpperCaseExtensionCopiesOntoItself()
    ensures ReadStep(Empty, "d/x_f200w_sci.FITS") == Stop(Empty, CopyOntoItself("d/x_f200w_sci.FITS"))
  {
    var image := "d/x_f200w_sci.FITS";
    assert forall i :: 0 <= i < |image| ==> image[i] != ".fits"[3];
    MissingCharNotContained(image, ".fits", 3);
    CopyOntoItselfIff(Empty, image);
  }

  /** A file name `p.fits` is copied to `p_prep.fits` when `p` holds no ".fits". */
  lemma PrepNameOfFitsFile(p: string)
    requires !Contains(p, ".fits")
    ensures PrepName(p + ".fits") == p + "_prep.fits"
  {
    ReplaceAllAtEnd(p, ".fits", "_prep.fits");
  }

  /**
    The background-subtracted copy of a split science image is
    `{dir}/{field}_{FILT}_sci_bkgsub.fits`, as long as ".fits" does not
    already occur earlier in the path.
  */
  lemma BkgNameOfSplitImage(dir: string, field: string, f: string)
    requires !Contains(PathJoin(dir, field + "_" + f + "_sci"), ".fits")
    ensures BkgName(OutputName(dir, field, f, "sci")) == PathJoin(dir, field + "_" + f + "_sci_bkgsub.fits")
  {
    var stem := field + "_" + f + "_sci";
    assert field + "_" + f + "_" + "sci" + ".fits" == stem + ".fits";
    PathJoinAppend(dir, stem, ".fits");
    ReplaceAllAtEnd(PathJoin(dir, stem), ".fits", "_bkgsub.fits");
    assert field + "_" + f + "_sci_bkgsub.fits" == stem + "_bkgsub.fits";
    PathJoinAppend(dir, stem, "_bkgsub.fits");
  }

  // ---------------------------------------------------------------------
  // Lemmas: tweakwcs

  /**
    When every filter's name occurs in exactly one catalog file name, the
    catalogs line up with the filters: one each, in filter order.
  */
  lemma {:induction false} OneCatalogPerFilter(fs: seq<string>, cs: seq<string>)
    requires forall i :: 0 <= i < |fs| ==> |MatchingCats(Upper(fs[i]), cs)| == 1
    ensures |CatalogsFor(fs, cs)| == |fs|
    ensures forall i :: 0 <= i < |fs| ==> CatalogsFor(fs, cs)[i] == MatchingCats(Upper(fs[i]), cs)[0]
    ensures forall i :: 0 <= i < |fs| ==> Contains(CatalogsFor(fs, cs)[i], Upper(fs[i])) && CatalogsFor(fs, cs)[i] in cs
    decreases |fs|
  {
    if fs != [] {
      var init := fs[..|fs| - 1];
      forall i | 0 <= i < |init| ensures |MatchingCats(Upper(init[i]), cs)| == 1 {
        assert init[i] == fs[i];
      }
      OneCatalogPerFilter(init, cs);
      var ci, m := CatalogsFor(init, cs), MatchingCats(Upper(fs[|fs| - 1]), cs);
      assert CatalogsFor(fs, cs) == ci + m;
      forall i | 0 <= i < |fs|
        ensures CatalogsFor(fs, cs)[i] == MatchingCats(Upper(fs[i]), cs)[0]
        ensures Contains(CatalogsFor(fs, cs)[i], Upper(fs[i])) && CatalogsFor(fs, cs)[i] in cs
      {
        if i < |init| {
          assert init[i] == fs[i] && (ci + m)[i] == ci[i];
        } else {
          assert (ci + m)[i] == m[0];
        }
      }
    }
  }

  /** `r` is what the loop records for image `i`: its filter and the offset search against the reference. */
  predicate HandledAs(filts: seq<string>, sci: seq<string>, cats: seq<string>, ref: nat,
                      matcher: (Pairing, int, int) -> MatchResult, r: ImageResult, i: nat)
    requires ref < |cats|
  {
    && i < |filts| && i < |sci| && i < |cats|
    && r == ImageResult(i, filts[i], Decide(matcher, Pairing(cats[ref], cats[i], sci[i])))
  }

  /** When nothing is raised, the loop from `idx` on handles every index from there but the reference. */
  lemma {:induction false} AlignFromCount(filts: seq<string>, sci: seq<string>, wht: seq<string>,
                                          cats: seq<string>, ref: nat,
                                          matcher: (Pairing, int, int) -> MatchResult, idx: nat)
    requires ref < |cats| && idx <= |filts|
    ensures var t := AlignFrom(filts, sci, wht, cats, ref, matcher, idx);
      t.err.None? ==> |t.results| == |filts| - idx - (if idx <= ref < |filts| then 1 else 0)
    decreases |filts| - idx
  {
    if idx < |filts| {
      AlignFromCount(filts, sci, wht, cats, ref, matcher, idx + 1);
    }
  }

  /**
    The loop from `idx` on handles the indices `idx`, `idx + 1`, ... in
    ascending order, stepping over the reference, each by the offset search
    against the reference catalog.
  */
  lemma {:induction false} AlignFromVisitsInOrder(filts: seq<string>, sci: seq<string>, wht: seq<string>,
                                                  cats: seq<string>, ref: nat,
                                                  matcher: (Pairing, int, int) -> MatchResult, idx: nat)
    requires ref < |cats| && idx <= |filts|
    ensures var t := AlignFrom(filts, sci, wht, cats, ref, matcher, idx);
      forall j :: 0 <= j < |t.results| ==>
        HandledAs(filts, sci, cats, ref, matcher, t.results[j], VisitIndex(idx, j, ref))
    decreases |filts| - idx
  {
    if idx < |filts| {
      var t := AlignFrom(filts, sci, wht, cats, ref, matcher, idx);
      var rest := AlignFrom(filts, sci, wht, cats, ref, matcher, idx + 1);
      AlignFromVisitsInOrder(filts, sci, wht, cats, ref, matcher, idx + 1);
      if idx == ref {
        assert t == rest;
        forall j: nat ensures VisitIndex(idx + 1, j, ref) == VisitIndex(idx, j, ref) {
        }
      } else if idx < |sci| && idx < |wht| && idx < |cats| {
        var r0 := ImageResult(idx, filts[idx], Decide(matcher, Pairing(cats[ref], cats[idx], sci[idx])));
        assert t.results == [r0] + rest.results;
        assert HandledAs(filts, sci, cats, ref, matcher, r0, VisitIndex(idx, 0, ref));
        forall j | 1 <= j < |t.results|
          ensures t.results[j] == rest.results[j - 1] && VisitIndex(idx, j, ref) == VisitIndex(idx + 1, j - 1, ref)
        {
        }
      }
    }
  }

  /**
    tweakwcs never aligns the reference filter against itself: the images it
    handles are 0, 1, ... with the reference index left out, and when nothing
    is raised there is one result for every other filter.
  */
  lemma TweakSkipsReference(filts: seq<string>, sci: seq<string>, wht: seq<string>, refFilt: Option<string>,
                            catFiles: seq<string>, matcher: (Pairing, int, int) -> MatchResult)
    ensures var t := Tweak(filts, sci, wht, refFilt, catFiles, matcher);
      RefIndex(filts, refFilt).Success? ==>
        var ref := RefIndex(filts, refFilt).value;
        && (forall j :: 0 <= j < |t.results| ==>
              t.results[j].idx == (if j < ref then j else j + 1) && t.results[j].idx != ref)
        && (t.err.None? ==> |t.results| == |filts| - 1)
  {
    var r := RefIndex(filts, refFilt);
    if r.Success? {
      var cats := CatalogsFor(filts, catFiles);
      if r.value < |sci| && r.value < |cats| {
        var ref := r.value;
        var t := AlignFrom(filts, sci, wht, cats, ref, matcher, 0);
        assert Tweak(filts, sci, wht, refFilt, catFiles, matcher) == t;
        AlignFromVisitsInOrder(filts, sci, wht, cats, ref, matcher, 0);
        AlignFromCount(filts, sci, wht, cats, ref, matcher, 0);
        forall j | 0 <= j < |t.results|
          ensures t.results[j].idx == (if j < ref then j else j + 1)
        {
          assert HandledAs(filts, sci, cats, ref, matcher, t.results[j], VisitIndex(0, j, ref));
        }
      }
    }
  }

  // ---------------------------------------------------------------------
  // The loops of __init__

  /** The i2d loop of lines 55-76: one filter per token, and a sci and a wht name per image. */
  method SplitImages(dir: string, field: string, images: seq<string>) returns (ls: Lists, err: Option<InitError>)
    ensures Loaded(ls, err) == Run(true, dir, field, Empty, images)
  {
    var filts, sci, wht: seq<string> := [], [], [];
    var filt: Option<string> := None;
    for k := 0 to |images|
      invariant Run(true, dir, field, Empty, images) == Run(true, dir, field, Lists(filts, sci, wht, filt), images[k..])
    {
      var st := Lists(filts, sci, wht, filt);
      var image := images[k];
      assert images[k..][0] == image && images[k..][1..] == images[k + 1..];
      var name := ScanName(image);
      var scan := ScanForFilter(name);
      if scan.Overrun? {
        return st, Some(FilterLookupOverrun(image, scan.at));
      } else if scan.Found? {
        filt := Some(TokenName(name, scan.start));
        filts := filts + [filt.value];
      } else if filt.None? {
        return st, Some(FilterUnbound(image));
      }
      // the loop over the extensions 'sci' and 'wht'
      sci := sci + [OutputName(dir, field, filt.value, "sci")];
      wht := wht + [OutputName(dir, field, filt.value, "wht")];
      RunNext(true, dir, field, st, images[k..], Lists(filts, sci, wht, filt));
    }
    assert images[|images|..] == [];
    ls, err := Lists(filts, sci, wht, filt), None;
  }

  /** The loop of lines 86-102 over separate sci and wht images, each renamed to its _prep copy. */
  method ReadImages(images: seq<string>) returns (ls: Lists, err: Option<InitError>)
    ensures Loaded(ls, err) == Run(false, "", "", Empty, images)
  {
    var filts, sci, wht: seq<string> := [], [], [];
    var filt: Option<string> := None;
    for k := 0 to |images|
      invariant Run(false, "", "", Empty, images) == Run(false, "", "", Lists(filts, sci, wht, filt), images[k..])
    {
      var st := Lists(filts, sci, wht, filt);
      assert images[k..][0] == images[k] && images[k..][1..] == images[k + 1..];
      var prep := PrepName(images[k]);
      if prep == images[k] {
        return st, Some(CopyOntoItself(images[k]));
      }
      var name := ScanName(prep);
      var scan := ScanForFilter(name);
      if scan.Overrun? {
        return st, Some(FilterLookupOverrun(prep, scan.at));
      }
      if scan.Found? {
        filt := Some(TokenName(name, scan.start));
      }
      if IsSciPath(prep) {
        sci := sci + [prep];
        if filt.None? {
          return Lists(filts, sci, wht, filt), Some(FilterUnbound(prep));
        }
        filts := filts + [filt.value];
      } else if IsWhtPath(prep) {
        wht := wht + [prep];
      }
      RunNext(false, "", "", st, images[k..], Lists(filts, sci, wht, filt));
    }
    assert images[|images|..] == [];
    ls, err := Lists(filts, sci, wht, filt), None;
  }

  /** Lines 32-123: the loop of the mode in force, then the pattern and the zeropoint guard. */
  method Initialize(i2d: bool, dir: string, field: string, images: seq<string>) returns (r: Initialized)
    ensures r == Init(i2d, dir, field, images)
  {
    var ls: Lists;
    var err: Option<InitError>;
    if i2d {
      ls, err := SplitImages(dir, field, images);
    } else {
      ls, err := ReadImages(images);
      RunReadIgnoresNames(dir, field, Empty, images);
    }
    var imfile := DefaultPattern(field);
    if err.Some? {
      return Initialized(ls, imfile, err);
    }
    if !i2d {
      if ls.sci == [] || ls.filts == [] {
        return Initialized(ls, imfile, Some(NoPatternImage));
      }
      imfile := ReplaceAll(ls.sci[0], ls.filts[0], "*");
    }
    if ls.sci == [] {
      return Initialized(ls, imfile, Some(NoZeropoints));
    }
    r := Initialized(ls, imfile, None);
  }

  // ---------------------------------------------------------------------
  // The object

  class PrepImg {
    const imageDir: string
    const field: string
    const reproject: bool
    const i2d: bool
    var imfile: string
    var i2dImg: seq<string>
    var sciImg: seq<string>
    var whtImg: seq<string>
    var bkgImg: seq<string>
    var filts: seq<string>
    var cats: seq<string>

    /** Lines 24-36: the settings, the default pattern and empty lists. */
    constructor (imageDir: string, field: string, reproject: bool, i2d: bool)
      ensures this.imageDir == imageDir && this.field == field
      ensures this.reproject == reproject && this.i2d == i2d
      ensures imfile == DefaultPattern(field)
      ensures i2dImg == [] && sciImg == [] && whtImg == [] && bkgImg == [] && filts == [] && cats == []
    {
      this.imageDir := imageDir;
      this.field := field;
      this.reproject := reproject;
      this.i2d := i2d;
      imfile := DefaultPattern(field);
      i2dImg, sciImg, whtImg, bkgImg, filts, cats := [], [], [], [], [], [];
    }

    /**
      Lines 32-123 of __init__ on the discovered images, already sorted
      (line 51): split or read them, remake the pattern, and fail where the
      zeropoint step would find no science image.
    */
    method Load(images: seq<string>) returns (err: Option<InitError>)
      modifies this
      ensures var r := Init(i2d, imageDir, field, images);
        && err == r.err && imfile == r.imfile
        && filts == r.lists.filts && sciImg == r.lists.sci && whtImg == r.lists.wht
      ensures i2dImg == images && bkgImg == [] && cats == old(cats)
    {
      var r := Initialize(i2d, imageDir, field, images);
      i2dImg, bkgImg := images, [];
      filts, sciImg, whtImg := r.lists.filts, r.lists.sci, r.lists.wht;
      imfile, err := r.imfile, r.err;
    }

    /** Lines 156-167: one background-subtracted name per science image, in order. */
    method Bkgsub()
      modifies this`bkgImg
      ensures bkgImg == old(bkgImg) + BkgNames(sciImg)
    {
      for k := 0 to |sciImg|
        invariant bkgImg == old(bkgImg) + BkgNames(sciImg[..k])
      {
        assert BkgNames(sciImg[..k + 1]) == BkgNames(sciImg[..k]) + [BkgName(sciImg[k])];
        bkgImg := bkgImg + [BkgName(sciImg[k])];
      }
      assert sciImg[..|sciImg|] == sciImg;
    }

    /** Lines 198-202: for every filter, every catalog whose name holds it. */
    method AssignCatalogs(catFiles: seq<string>)
      modifies this`cats
      ensures cats == CatalogsFor(filts, catFiles)
    {
      cats := [];
      for i := 0 to |filts|
        invariant cats == CatalogsFor(filts[..i], catFiles)
      {
        var f := Upper(filts[i]);
        for j := 0 to |catFiles|
          invariant cats == CatalogsFor(filts[..i], catFiles) + MatchingCats(f, catFiles[..j])
        {
          MatchingCatsStep(f, catFiles, j);
          if Contains(catFiles[j], f) {
            cats := cats + [catFiles[j]];
          }
        }
        assert catFiles[..|catFiles|] == catFiles;
        CatalogsForStep(filts, catFiles, i);
      }
      assert filts[..|filts|] == filts;
    }

    /**
      Lines 175-280: choose the reference filter, pair catalogs with filters,
      and search and align every other filter in ascending order.
    */
    method TweakWcs(refFilt: Option<string>, catFiles: seq<string>, matcher: (Pairing, int, int) -> MatchResult)
      returns (results: seq<ImageResult>, err: Option<TweakError>)
      modifies this`cats
      ensures var t := Tweak(filts, sciImg, whtImg, refFilt, catFiles, matcher);
        results == t.results && err == t.err
      ensures cats == if RefIndex(filts, refFilt).Failure? then old(cats) else CatalogsFor(filts, catFiles)
    {
      results := [];
      var r := RefIndex(filts, refFilt);
      if r.Failure? {
        err := Some(r.error);
        return;
      }
      var ref := r.value;
      AssignCatalogs(catFiles);
      if ref >= |sciImg| {
        err := Some(NoRefImage(ref));
        return;
      }
      if ref >= |cats| {
        err := Some(NoRefCatalog(ref));
        return;
      }
      results, err := AlignEach(filts, sciImg, whtImg, cats, ref, matcher);
    }
  }
}
