/**
  The helpers of the Eazy class (eazy.py) around the EAZY photometric
  redshift code: the parameter file, the magnitude-to-flux rewrite of the
  input catalog, and the bookkeeping of makePlots (which per-object files it
  reads, which objects it skips, how it reads the redshift labels from the
  template header and the filter widths it draws).

  The parameters are a Python dict; here they are the entries in insertion
  order, each value already formatted as `f'{value}'` would print it. Tables
  are their columns in order. File contents are inputs: a catalog table, the
  ids of photz.zout and the EAZY output files of makePlots.
*/
module Eazy {
  import opened Wrappers
  import opened Strings

  // ---------------------------------------------------------------------
  // The parameter dict

  type Params = seq<(string, string)>

  /** A dict holds each key once. */
  predicate UniqueKeys(ps: Params) {
    forall i, j :: 0 <= i < j < |ps| ==> ps[i].0 != ps[j].0
  }

  /** `ps[key]`, or None where Python raises KeyError. */
  function Lookup(ps: Params, key: string): (r: Option<string>)
    ensures r.Some? <==> exists i :: 0 <= i < |ps| && ps[i].0 == key
    ensures r.Some? ==> exists i :: 0 <= i < |ps| && ps[i] == (key, r.value)
  {
    if ps == [] then None
    else if ps[0].0 == key then Some(ps[0].1)
    else
      var r := Lookup(ps[1..], key);
      assert r.Some? ==> exists i :: 0 <= i < |ps[1..]| && ps[1..][i] == (key, r.value);
      r
  }

  /** The place of `key` among the entries: the first entry holding it. */
  function KeyIndex(ps: Params, key: string): (r: Option<nat>)
    ensures r.Some? ==> r.value < |ps| && ps[r.value].0 == key && forall j :: 0 <= j < r.value ==> ps[j].0 != key
    ensures r.None? ==> forall j :: 0 <= j < |ps| ==> ps[j].0 != key
  {
    if ps == [] then None
    else if ps[0].0 == key then Some(0)
    else
      match KeyIndex(ps[1..], key)
      case None =>
        assert forall j :: 0 < j < |ps| ==> ps[j] == ps[1..][j - 1];
        None
      case Some(i) => Some(i + 1)
  }

  /** `ps[key] = value`: an existing key keeps its place, a new one goes last. */
  function Assign(ps: Params, key: string, value: string): (r: Params)
    ensures Lookup(r, key) == Some(value)
    ensures forall k :: k != key ==> Lookup(r, k) == Lookup(ps, k)
    ensures |r| == |ps| + (if Lookup(ps, key).Some? then 0 else 1)
  {
    if ps == [] then [(key, value)]
    else if ps[0].0 == key then [(key, value)] + ps[1..]
    else [ps[0]] + Assign(ps[1..], key, value)
  }

  /** Assigning a new key appends its entry after all the others. */
  lemma {:induction false} AssignNewKeyGoesLast(ps: Params, key: string, value: string)
    requires KeyIndex(ps, key).None?
    ensures Assign(ps, key, value) == ps + [(key, value)]
    decreases |ps|
  {
    if ps != [] {
      var t := ps[1..];
      assert Assign(ps, key, value) == [ps[0]] + Assign(t, key, value);
      AssignNewKeyGoesLast(t, key, value);
      ConcatAssoc([ps[0]], t, [(key, value)]);
      assert ps == [ps[0]] + t;
    }
  }

  /** Assigning an existing key replaces its entry in place; every other entry keeps its position. */
  lemma {:induction false} AssignKeepsPlace(ps: Params, key: string, value: string)
    requires KeyIndex(ps, key).Some?
    ensures Assign(ps, key, value) == ps[KeyIndex(ps, key).value := (key, value)]
    decreases |ps|
  {
    if ps[0].0 != key {
      var t := ps[1..];
      assert Assign(ps, key, value) == [ps[0]] + Assign(t, key, value);
      AssignKeepsPlace(t, key, value);
      ConsUpdate(ps[0], t, KeyIndex(t, key).value, (key, value));
      assert ps == [ps[0]] + t;
    }
  }

  /** Updating the tail at `i` is updating the whole at `i + 1`. */
  lemma ConsUpdate<T>(x: T, t: seq<T>, i: nat, v: T)
    requires i < |t|
    ensures [x] + t[i := v] == ([x] + t)[i + 1 := v]
  {
    var a, b := [x] + t[i := v], ([x] + t)[i + 1 := v];
    forall j | 0 <= j < |a| ensures a[j] == b[j] {
      if j > 0 {
        assert a[j] == t[i := v][j - 1];
      }
    }
  }

  /** The line makeparam writes for one entry (line 23). */
  function ParamLine(key: string, value: string): string { key + " " + value + "\n" }

  /** Everything makeparam writes: one line per entry, in insertion order. */
  function ParamText(ps: Params): string {
    if ps == [] then [] else ParamLine(ps[0].0, ps[0].1) + ParamText(ps[1..])
  }

  /** The prefix of `s` before the first `c`. */
  function TakeUntil(s: string, c: char): (r: string)
    ensures |r| <= |s| && r == s[..|r|]
    ensures c !in r
    ensures |r| < |s| ==> s[|r|] == c
  {
    if s == [] || s[0] == c then [] else [s[0]] + TakeUntil(s[1..], c)
  }

  /** A line "NAME value" read back: the name is everything before the first space. */
  function ParseLine(l: string): (string, string) {
    var k := TakeUntil(l, ' ');
    (k, if |k| < |l| then l[|k| + 1..] else [])
  }

  /** A parameter file read back line by line. */
  function ParseParams(t: string): Params
    decreases |t|
  {
    if t == [] then []
    else
      var l := TakeUntil(t, '\n');
      [ParseLine(l)] + (if |l| < |t| then ParseParams(t[|l| + 1..]) else [])
  }

  // ---------------------------------------------------------------------
  // convertFluxes

  datatype Column = Column(name: string, cells: seq<real>)

  type Table = seq<Column>

  /** The row count of a table: every column has it. */
  function Rows(t: Table): nat { if t == [] then 0 else |t[0].cells| }

  /** What an astropy Table guarantees: distinct column names and columns of one length. */
  predicate WellFormed(t: Table) {
    && (forall i, j :: 0 <= i < j < |t| ==> t[i].name != t[j].name)
    && (forall i :: 0 <= i < |t| ==> |t[i].cells| == Rows(t))
  }

  function Names(t: Table): seq<string> {
    seq(|t|, i requires 0 <= i < |t| => t[i].name)
  }

  /** The position of the column `name`, or None where `table[name]` raises KeyError. */
  function ColumnIndex(t: Table, name: string): (r: Option<nat>)
    ensures r.Some? ==> r.value < |t| && t[r.value].name == name
    ensures r.None? ==> forall i :: 0 <= i < |t| ==> t[i].name != name
  {
    if t == [] then None
    else if t[0].name == name then Some(0)
    else match ColumnIndex(t[1..], name)
      case None => None
      case Some(i) => Some(i + 1)
  }

  /** The exceptions convertFluxes raises on its own account. */
  datatype FluxError =
    | MissingParam(key: string)     // params['CATALOG_FILE'] (line 32)
    | MissingColumn(name: string)   // table[filt] or table[filt + '_err'] (lines 34, 37, 40), rename of 'id' (line 42)
    | ColumnExists(name: string)    // rename_column onto '#id' when it is already there (line 42)

  /**
    One row of lines 35-40: a magnitude below 1 becomes the sentinel -100 and
    its error 0; any other becomes `toFlux(mag)`, and its error is the old
    error times `errScale` (2.5/ln 10) times the flux just written.
  */
  function ConvertCell(mag: real, err: real, toFlux: real -> real, errScale: real): (real, real) {
    if mag < 1.0 then (-100.0, 0.0)
    else
      var flux := toFlux(mag);
      (flux, ScaledErr(err, flux, errScale))
  }

  /** Line 40: the magnitude error times 2.5/ln 10 times the flux. */
  function ScaledErr(err: real, flux: real, errScale: real): real { errScale * err * flux }

  function ErrName(filt: string): string { filt + "_err" }

  /** The filter column after the row loop, given its `_err` column. */
  function ConvertedMags(mags: seq<real>, errs: seq<real>, toFlux: real -> real, errScale: real): (r: seq<real>)
    requires |errs| == |mags|
    ensures |r| == |mags|
  {
    seq(|mags|, i requires 0 <= i < |mags| => ConvertCell(mags[i], errs[i], toFlux, errScale).0)
  }

  /** The `_err` column after the row loop. */
  function ConvertedErrs(mags: seq<real>, errs: seq<real>, toFlux: real -> real, errScale: real): (r: seq<real>)
    requires |errs| == |mags|
    ensures |r| == |mags|
  {
    seq(|mags|, i requires 0 <= i < |mags| => ConvertCell(mags[i], errs[i], toFlux, errScale).1)
  }

  /** Lines 34-40 for one filter. */
  function ConvertOne(t: Table, filt: string, toFlux: real -> real, errScale: real): (r: Result<Table, FluxError>)
    requires WellFormed(t)
    ensures r.Success? ==> WellFormed(r.value) && Names(r.value) == Names(t)
  {
    match ColumnIndex(t, filt)
    case None => Failure(MissingColumn(filt))
    case Some(a) =>
      if |t[a].cells| == 0 then Success(t)
      else match ColumnIndex(t, ErrName(filt))
        case None => Failure(MissingColumn(ErrName(filt)))
        case Some(b) =>
          var mags, errs := t[a].cells, t[b].cells;
          var r := t[a := Column(filt, ConvertedMags(mags, errs, toFlux, errScale))]
                    [b := Column(ErrName(filt), ConvertedErrs(mags, errs, toFlux, errScale))];
          assert Names(r) == Names(t);
          Success(r)
  }

  /** Lines 33-40: the filters one after the other, each on the table the previous one left. */
  function ConvertAll(t: Table, filts: seq<string>, toFlux: real -> real, errScale: real): (r: Result<Table, FluxError>)
    requires WellFormed(t)
    ensures r.Success? ==> WellFormed(r.value) && Names(r.value) == Names(t)
    decreases |filts|
  {
    if filts == [] then Success(t)
    else match ConvertOne(t, filts[0], toFlux, errScale)
      case Failure(e) => Failure(e)
      case Success(t') => ConvertAll(t', filts[1..], toFlux, errScale)
  }

  /** `rename_column(from, to)` (line 42). */
  function RenameColumn(t: Table, from: string, to: string): (r: Result<Table, FluxError>)
  {
    match ColumnIndex(t, from)
    case None => Failure(MissingColumn(from))
    case Some(i) =>
      if ColumnIndex(t, to).Some? then Failure(ColumnExists(to))
      else Success(t[i := Column(to, t[i].cells)])
  }

  /** The name the converted catalog is written to (lines 43-44). */
  function FluxCatalogName(cat: string): string { ReplaceAll(cat, ".txt", "_flux.txt") }

  /** What convertFluxes writes: the file name and the table. */
  datatype Written = Written(path: string, table: Table)

  /** Lines 32-44 on the catalog's contents `t`. */
  function FluxOutcome(ps: Params, t: Table, filts: seq<string>, toFlux: real -> real, errScale: real): Result<Written, FluxError>
    requires WellFormed(t)
  {
    match Lookup(ps, "CATALOG_FILE")
    case None => Failure(MissingParam("CATALOG_FILE"))
    case Some(cat) =>
      match ConvertAll(t, filts, toFlux, errScale)
      case Failure(e) => Failure(e)
      case Success(t') =>
        match RenameColumn(t', "id", "#id")
        case Failure(e) => Failure(e)
        case Success(t'') => Success(Written(FluxCatalogName(cat), t''))
  }

  // ---------------------------------------------------------------------
  // makePlots: redshift labels

  /** The IndexErrors of lines 98-105: a missing line, or a missing token of a line. */
  datatype LabelError = NoLine(line: nat) | NoToken(line: nat, token: nat)

  /** The label read from a header line's tokens: the second, joined with the third when the second is the bare key. */
  function Label(ts: seq<string>, key: string): string
    requires |ts| >= 2 && (ts[1] == key ==> |ts| >= 3)
  {
    if ts[1] == key then ts[1] + ts[2] else ts[1]
  }

  /**
    Lines 98-105: z_a from line 1 and z_p from line 2 of the template file,
    each its second token, with the third appended when the second is just
    the key ('z=' or 'z_prior='); the lookups happen, and fail, in that order.
  */
  function RedshiftLabels(lines: seq<string>): Result<(string, string), LabelError> {
    if |lines| < 2 then Failure(NoLine(1))
    else
      var t1 := SplitWs(lines[1]);
      if |t1| < 2 then Failure(NoToken(1, 1))
      else if |lines| < 3 then Failure(NoLine(2))
      else
        var t2 := SplitWs(lines[2]);
        if |t2| < 2 then Failure(NoToken(2, 1))
        else if t1[1] == "z=" && |t1| < 3 then Failure(NoToken(1, 2))
        else if t2[1] == "z_prior=" && |t2| < 3 then Failure(NoToken(2, 2))
        else Success((Label(t1, "z="), Label(t2, "z_prior=")))
  }

  // ---------------------------------------------------------------------
  // makePlots: filter widths

  /**
    The F444W width `0.553*10**4` (line 127) as the double Python computes:
    0.553 has no exact binary form, and the product is 6080299301601281 / 2^40,
    slightly above 5530. The other five widths are exact in floating point.
  */
  const F444WWidth: real := 5530.0000000000009094947017729282379150390625

  /** The chain of lines 126-141: the width of the first threshold the wavelength exceeds. */
  function WidthFor(l: real): Option<real> {
    if l - 44000.0 > 0.0 then Some(F444WWidth)    // F444W
    else if l - 35000.0 > 0.0 then Some(4200.0)   // F356W
    else if l - 27000.0 > 0.0 then Some(3560.0)   // F277W
    else if l - 19000.0 > 0.0 then Some(2360.0)   // F200W
    else if l - 15000.0 > 0.0 then Some(1690.0)   // F150W
    else if l - 9000.0 > 0.0 then Some(1050.0)    // F090W
    else None
  }

  /** The thresholds and widths as a table, in the order they are tried. */
  const Thresholds: seq<real> := [44000.0, 35000.0, 27000.0, 19000.0, 15000.0, 9000.0]
  const BandWidths: seq<real> := [F444WWidth, 4200.0, 3560.0, 2360.0, 1690.0, 1050.0]

  /** The first threshold from `k` on that `l` exceeds. */
  function FirstExceeded(l: real, k: nat): (r: Option<nat>)
    requires k <= |Thresholds|
    ensures r.Some? ==> k <= r.value < |Thresholds| && l > Thresholds[r.value]
    ensures r.Some? ==> forall j :: k <= j < r.value ==> l <= Thresholds[j]
    ensures r.None? ==> forall j :: k <= j < |Thresholds| ==> l <= Thresholds[j]
    decreases |Thresholds| - k
  {
    if k == |Thresholds| then None
    else if l > Thresholds[k] then Some(k)
    else FirstExceeded(l, k + 1)
  }

  /** filter_width for all wavelengths: one width per wavelength above 9000, in order. */
  function Widths(ls: seq<real>): seq<real> {
    if ls == [] then []
    else (if WidthFor(ls[0]).Some? then [WidthFor(ls[0]).value] else []) + Widths(ls[1..])
  }

  /** The widths of one more wavelength: filter_width grows by at most that wavelength's width. */
  lemma {:induction false} WidthsSnoc(ls: seq<real>, l: real)
    ensures Widths(ls + [l]) == Widths(ls) + (if WidthFor(l).Some? then [WidthFor(l).value] else [])
    decreases |ls|
  {
    if ls == [] {
      assert ls + [l] == [l];
    } else {
      var h: seq<real> := if WidthFor(ls[0]).Some? then [WidthFor(ls[0]).value] else [];
      var x: seq<real> := if WidthFor(l).Some? then [WidthFor(l).value] else [];
      assert (ls + [l])[0] == ls[0] && (ls + [l])[1..] == ls[1..] + [l];
      assert Widths(ls + [l]) == h + Widths(ls[1..] + [l]);
      WidthsSnoc(ls[1..], l);
      assert Widths(ls) == h + Widths(ls[1..]);
      ConcatAssoc(h, Widths(ls[1..]), x);
    }
  }

  /** The loop of lines 124-141. */
  method FilterWidths(ls: seq<real>) returns (ws: seq<real>)
    ensures ws == Widths(ls)
  {
    ws := [];
    for k := 0 to |ls|
      invariant ws == Widths(ls[..k])
    {
      assert ls[..k + 1] == ls[..k] + [ls[k]];
      WidthsSnoc(ls[..k], ls[k]);
      var w := WidthFor(ls[k]);
      if w.Some? {
        ws := ws + [w.value];
      }
    }
    assert ls[..|ls|] == ls;
  }

  // ---------------------------------------------------------------------
  // makePlots: the objects

  /** `os.path.join(output_dir, 'photz_' + str(id) + ext)` (lines 87-89). */
  function ObjectFile(dir: string, id: int, ext: string): string {
    PathJoin(dir, "photz_" + IntToStr(id) + ext)
  }

  /** `os.path.join(output_dir, f'{id}_EAZY_plot.pdf')` (line 194). */
  function PlotFile(dir: string, id: int): string {
    PathJoin(dir, IntToStr(id) + "_EAZY_plot.pdf")
  }

  /**
    The EAZY output files makePlots reads: for every obs_sed file its
    'lambda' column, the pz files present, and for every temp_sed file its
    lines.
  */
  datatype SedFiles = SedFiles(obsSed: map<string, seq<real>>, pz: set<string>, tempSed: map<string, seq<string>>)

  /** What happens to one object. */
  datatype ObjectOutcome =
    | Skipped(id: int, missing: string)                                        // lines 91-93
    | Plotted(id: int, za: string, zp: string, widths: seq<real>, plot: string)

  /** The exceptions makePlots raises on its own account. */
  datatype PlotError =
    | NoCatalogParam                // params['CATALOG_FILE'] (line 81)
    | NoTemplate(path: string)      // open(temp_sed) (line 96)
    | BadLabels(err: LabelError)    // lines 98-105
    | NoPz(path: string)            // Table.read(pz) (line 111)

  /** Lines 87-141 and 194 for one id. */
  function PlotOne(dir: string, id: int, files: SedFiles): Result<ObjectOutcome, PlotError> {
    var obs := ObjectFile(dir, id, ".obs_sed");
    var pz := ObjectFile(dir, id, ".pz");
    var temp := ObjectFile(dir, id, ".temp_sed");
    if obs !in files.obsSed then Success(Skipped(id, obs))
    else if temp !in files.tempSed then Failure(NoTemplate(temp))
    else
      match RedshiftLabels(files.tempSed[temp])
      case Failure(e) => Failure(BadLabels(e))
      case Success(z) =>
        if pz !in files.pz then Failure(NoPz(pz))
        else Success(Plotted(id, z.0, z.1, Widths(files.obsSed[obs]), PlotFile(dir, id)))
  }

  /** The objects handled, and the exception that stopped the loop, if any. */
  datatype PlotRun = PlotRun(outcomes: seq<ObjectOutcome>, err: Option<PlotError>)

  /** The loop of lines 85-194 from the front of `ids`. */
  function Plots(dir: string, ids: seq<int>, files: SedFiles): PlotRun {
    if ids == [] then PlotRun([], None)
    else
      match PlotOne(dir, ids[0], files)
      case Failure(e) => PlotRun([], Some(e))
      case Success(o) =>
        var rest := Plots(dir, ids[1..], files);
        PlotRun([o] + rest.outcomes, rest.err)
  }

  /** Lines 77-78: an empty id_list means every id of photz.zout. */
  function EffectiveIds(idList: seq<int>, zoutIds: seq<int>): seq<int> {
    if |idList| == 0 then zoutIds else idList
  }

  /** Lines 66-194 as a whole. */
  function MakePlotsOutcome(ps: Params, dir: string, idList: seq<int>, zoutIds: seq<int>, files: SedFiles): PlotRun {
    if Lookup(ps, "CATALOG_FILE").None? then PlotRun([], Some(NoCatalogParam))
    else Plots(dir, EffectiveIds(idList, zoutIds), files)
  }

  // ---------------------------------------------------------------------
  // Lemmas: the parameter file

  lemma {:induction false} TakeUntilPrefix(a: string, c: char, b: string)
    requires c !in a
    ensures TakeUntil(a + [c] + b, c) == a
    decreases |a|
  {
    if a != [] {
      assert (a + [c] + b)[1..] == a[1..] + [c] + b;
      TakeUntilPrefix(a[1..], c, b);
      assert [a[0]] + a[1..] == a;
    }
  }

  /** Keys that hold no space or newline and values that hold no newline. */
  predicate PlainEntries(ps: Params) {
    forall i :: 0 <= i < |ps| ==> ' ' !in ps[i].0 && '\n' !in ps[i].0 && '\n' !in ps[i].1
  }

  /** A line "key value" reads back as the entry when the key holds no space. */
  lemma ParseLineOfEntry(k: string, v: string)
    requires ' ' !in k
    ensures ParseLine(k + " " + v) == (k, v)
  {
    TakeUntilPrefix(k, ' ', v);
    assert k + " " + v == k + [' '] + v;
    assert (k + " " + v)[|k| + 1..] == v;
  }

  /** A text that starts with a whole line reads back as that line, then the rest. */
  lemma ParseParamsCons(line: string, rest: string)
    requires '\n' !in line
    ensures ParseParams(line + "\n" + rest) == [ParseLine(line)] + ParseParams(rest)
  {
    var t := line + "\n" + rest;
    TakeUntilPrefix(line, '\n', rest);
    assert t == line + ['\n'] + rest;
    assert t[|line| + 1..] == rest;
  }

  /**
    makeparam's text reads back as exactly the entries, in order: one line
    "{param} {value}" per entry and nothing else.
  */
  lemma {:induction false} ParamTextRoundTrip(ps: Params)
    requires PlainEntries(ps)
    ensures ParseParams(ParamText(ps)) == ps
    decreases |ps|
  {
    if ps != [] {
      var (k, v) := ps[0];
      var rest := ParamText(ps[1..]);
      assert ParamText(ps) == (k + " " + v) + "\n" + rest;
      EntryLineHasNoNewline(k, v);
      ParseParamsCons(k + " " + v, rest);
      ParseLineOfEntry(k, v);
      PlainEntriesTail(ps);
      ParamTextRoundTrip(ps[1..]);
      assert [(k, v)] + ps[1..] == ps;
    }
  }

  lemma EntryLineHasNoNewline(k: string, v: string)
    requires '\n' !in k && '\n' !in v
    ensures '\n' !in k + " " + v
  {
    var line := k + " " + v;
    forall i | 0 <= i < |line| ensures line[i] != '\n' {
      if i < |k| { assert line[i] == k[i]; }
      else if i > |k| { assert line[i] == v[i - |k| - 1]; }
    }
  }

  lemma PlainEntriesTail(ps: Params)
    requires ps != [] && PlainEntries(ps)
    ensures PlainEntries(ps[1..])
  {
    forall i | 0 <= i < |ps[1..]| ensures ' ' !in ps[1..][i].0 && '\n' !in ps[1..][i].0 && '\n' !in ps[1..][i].1 {
      assert ps[1..][i] == ps[i + 1];
    }
  }

  /** Assigning a key keeps the dict's keys distinct. */
  lemma {:induction false} AssignKeepsUniqueKeys(ps: Params, key: string, value: string)
    requires UniqueKeys(ps)
    ensures UniqueKeys(Assign(ps, key, value))
    decreases |ps|
  {
    if ps != [] && ps[0].0 != key {
      var tail := ps[1..];
      assert UniqueKeys(tail) by {
        forall i, j | 0 <= i < j < |tail| ensures tail[i].0 != tail[j].0 {
          assert tail[i] == ps[i + 1] && tail[j] == ps[j + 1];
        }
      }
      AssignKeepsUniqueKeys(tail, key, value);
      var r := Assign(ps, key, value);
      var rt := Assign(tail, key, value);
      assert r == [ps[0]] + rt;
      forall j | 0 < j < |r| ensures r[j].0 != ps[0].0 {
        var k := r[j].0;
        assert rt[j - 1] == r[j];
        assert Lookup(rt, k).Some?;
        if k != key {
          assert Lookup(tail, k).Some?;
          var i :| 0 <= i < |tail| && tail[i].0 == k;
          assert tail[i] == ps[i + 1];
        }
      }
    }
  }

  // ---------------------------------------------------------------------
  // Lemmas: convertFluxes

  /** The filter column and its `_err` column are two different columns. */
  lemma ErrColumnIsOther(t: Table, filt: string)
    requires ColumnIndex(t, filt).Some? && ColumnIndex(t, ErrName(filt)).Some?
    ensures ColumnIndex(t, filt).value != ColumnIndex(t, ErrName(filt)).value
  {
    assert |ErrName(filt)| != |filt|;
  }

  /**
    One filter fails exactly when the filter column is missing, or the table
    has rows and the `_err` column is missing; otherwise it keeps every
    other column as it was.
  */
  lemma ConvertOneFails(t: Table, filt: string, toFlux: real -> real, errScale: real)
    requires WellFormed(t)
    ensures var r := ConvertOne(t, filt, toFlux, errScale);
      && (r.Failure? <==> ColumnIndex(t, filt).None? || (Rows(t) > 0 && ColumnIndex(t, ErrName(filt)).None?))
      && (r.Success? ==>
            && |r.value| == |t|
            && forall c :: 0 <= c < |t| && t[c].name != filt && t[c].name != ErrName(filt) ==> r.value[c] == t[c])
  {
    var a := ColumnIndex(t, filt);
    if a.Some? {
      assert |t[a.value].cells| == Rows(t);
    }
  }

  /**
    Every row of a converted filter is rewritten as ConvertCell says: the
    sentinel pair below magnitude 1, else the flux and the error cell
    scaled by the flux just written.
  */
  lemma ConvertOneRows(t: Table, filt: string, toFlux: real -> real, errScale: real)
    requires WellFormed(t)
    requires ConvertOne(t, filt, toFlux, errScale).Success? && Rows(t) > 0
    ensures ColumnIndex(t, filt).Some? && ColumnIndex(t, ErrName(filt)).Some?
    ensures var r := ConvertOne(t, filt, toFlux, errScale).value;
      var a := ColumnIndex(t, filt).value;
      var b := ColumnIndex(t, ErrName(filt)).value;
      forall i :: 0 <= i < Rows(t) ==>
        && (t[a].cells[i] < 1.0 ==> r[a].cells[i] == -100.0 && r[b].cells[i] == 0.0)
        && (t[a].cells[i] >= 1.0 ==>
              r[a].cells[i] == toFlux(t[a].cells[i])
              && r[b].cells[i] == ScaledErr(t[b].cells[i], r[a].cells[i], errScale))
  {
    var a := ColumnIndex(t, filt).value;
    assert |t[a].cells| == Rows(t);
    var b := ColumnIndex(t, ErrName(filt)).value;
    ErrColumnIsOther(t, filt);
    var mags, errs := t[a].cells, t[b].cells;
    var r := ConvertOne(t, filt, toFlux, errScale).value;
    assert r[a].cells == ConvertedMags(mags, errs, toFlux, errScale);
    assert r[b].cells == ConvertedErrs(mags, errs, toFlux, errScale);
    forall i | 0 <= i < Rows(t)
      ensures r[a].cells[i] == ConvertCell(mags[i], errs[i], toFlux, errScale).0
      ensures r[b].cells[i] == ConvertCell(mags[i], errs[i], toFlux, errScale).1
    {
    }
  }

  /** A column that no listed filter names, by itself or as its `_err`, comes out of the loop unchanged. */
  lemma {:induction false} ConvertAllKeepsOtherColumns(t: Table, filts: seq<string>, toFlux: real -> real, errScale: real)
    requires WellFormed(t)
    ensures var r := ConvertAll(t, filts, toFlux, errScale);
      r.Success? ==>
        |r.value| == |t| &&
        forall c :: 0 <= c < |t| && (forall j :: 0 <= j < |filts| ==> t[c].name != filts[j] && t[c].name != ErrName(filts[j]))
          ==> r.value[c] == t[c]
    decreases |filts|
  {
    if filts != [] {
      ConvertOneFails(t, filts[0], toFlux, errScale);
      var one := ConvertOne(t, filts[0], toFlux, errScale);
      if one.Success? {
        ConvertAllKeepsOtherColumns(one.value, filts[1..], toFlux, errScale);
        var r := ConvertAll(t, filts, toFlux, errScale);
        if r.Success? {
          forall c | 0 <= c < |t| && (forall j :: 0 <= j < |filts| ==> t[c].name != filts[j] && t[c].name != ErrName(filts[j]))
            ensures r.value[c] == t[c]
          {
            assert one.value[c] == t[c];
            forall j | 0 <= j < |filts[1..]|
              ensures one.value[c].name != filts[1..][j] && one.value[c].name != ErrName(filts[1..][j])
            {
              assert filts[1..][j] == filts[j + 1];
            }
          }
        }
      }
    }
  }

  /** The rename changes one column name, 'id' to '#id', and nothing else; it fails without 'id' or with '#id' present. */
  lemma RenameIdOnly(t: Table)
    requires WellFormed(t)
    ensures var r := RenameColumn(t, "id", "#id");
      && (r.Failure? <==> ColumnIndex(t, "id").None? || ColumnIndex(t, "#id").Some?)
      && (r.Success? ==>
            && |r.value| == |t|
            && (forall c :: 0 <= c < |t| ==> r.value[c].cells == t[c].cells)
            && (forall c :: 0 <= c < |t| ==> r.value[c].name == if t[c].name == "id" then "#id" else t[c].name)
            && WellFormed(r.value))
  {
    var r := RenameColumn(t, "id", "#id");
    if r.Success? {
      var i := ColumnIndex(t, "id").value;
      forall c | 0 <= c < |t| && c != i ensures t[c].name != "id" {
        if c < i { assert t[c].name != t[i].name; } else { assert t[i].name != t[c].name; }
      }
    }
  }

  /** A catalog named `p.txt`, with no other ".txt" in it, is rewritten to `p_flux.txt`. */
  lemma FluxCatalogNameOfTxt(p: string)
    requires !Contains(p, ".txt")
    ensures FluxCatalogName(p + ".txt") == p + "_flux.txt"
  {
    ReplaceAllAtEnd(p, ".txt", "_flux.txt");
  }

  /**
    After a successful convertFluxes, CATALOG_FILE names the file just
    written, and every other parameter is as it was.
  */
  lemma ConvertFluxesUpdatesCatalog(ps: Params, t: Table, filts: seq<string>, toFlux: real -> real, errScale: real)
    requires WellFormed(t)
    ensures var r := FluxOutcome(ps, t, filts, toFlux, errScale);
      r.Success? ==>
        var ps' := Assign(ps, "CATALOG_FILE", r.value.path);
        && r.value.path == FluxCatalogName(Lookup(ps, "CATALOG_FILE").value)
        && Lookup(ps', "CATALOG_FILE") == Some(r.value.path)
        && (forall k :: k != "CATALOG_FILE" ==> Lookup(ps', k) == Lookup(ps, k))
  {
  }

  // ---------------------------------------------------------------------
  // Lemmas: redshift labels

  /**
    For header lines written as words separated by spaces and ended by any
    whitespace (the newline `readlines()` keeps), z_a is the second word of
    line 1, joined with the third when the second is exactly 'z=', and z_p
    likewise on line 2 with 'z_prior='.
  */
  lemma RedshiftLabelsOfHeader(lines: seq<string>, w1: seq<string>, t1: string, w2: seq<string>, t2: string)
    requires |lines| >= 3 && lines[1] == JoinSpaced(w1) + t1 && lines[2] == JoinSpaced(w2) + t2
    requires AllSpace(t1) && AllSpace(t2)
    requires forall i :: 0 <= i < |w1| ==> w1[i] != [] && NoSpace(w1[i])
    requires forall i :: 0 <= i < |w2| ==> w2[i] != [] && NoSpace(w2[i])
    requires |w1| >= 2 && (w1[1] == "z=" ==> |w1| >= 3)
    requires |w2| >= 2 && (w2[1] == "z_prior=" ==> |w2| >= 3)
    ensures RedshiftLabels(lines) == Success((
      if w1[1] == "z=" then w1[1] + w1[2] else w1[1],
      if w2[1] == "z_prior=" then w2[1] + w2[2] else w2[1]))
  {
    SplitJoinSpaced(w1, t1);
    SplitJoinSpaced(w2, t2);
  }

  /** A header without a space after the key gives 'z=...' and 'z_prior=...'. */
  lemma HeaderWithoutSpaceLabels()
    ensures RedshiftLabels(["# lambda\n", "# z=10.1234\n", "# z_prior=10.1000\n"]) ==
      Success(("z=10.1234", "z_prior=10.1000"))
  {
    var lines := ["# lambda\n", "# z=10.1234\n", "# z_prior=10.1000\n"];
    assert lines[1] == JoinSpaced(["#", "z=10.1234"]) + "\n";
    assert lines[2] == JoinSpaced(["#", "z_prior=10.1000"]) + "\n";
    RedshiftLabelsOfHeader(lines, ["#", "z=10.1234"], "\n", ["#", "z_prior=10.1000"], "\n");
  }

  /** A bare 'z=' ending line 1 raises IndexError, once line 2 has its two tokens. */
  lemma LoneKeyWithoutValueFails(lines: seq<string>, w1: seq<string>, t1: string)
    requires |lines| >= 3 && lines[1] == JoinSpaced(w1) + t1 && AllSpace(t1)
    requires forall i :: 0 <= i < |w1| ==> w1[i] != [] && NoSpace(w1[i])
    requires |w1| == 2 && w1[1] == "z="
    requires |SplitWs(lines[2])| >= 2
    ensures RedshiftLabels(lines) == Failure(NoToken(1, 2))
  {
    SplitJoinSpaced(w1, t1);
  }

  /** Successful parsing needs the three header lines 0-2 and two tokens on lines 1 and 2. */
  lemma LabelsNeedHeader(lines: seq<string>)
    ensures RedshiftLabels(lines).Success? ==>
      |lines| >= 3 && |SplitWs(lines[1])| >= 2 && |SplitWs(lines[2])| >= 2
  {
  }

  // ---------------------------------------------------------------------
  // Lemmas: filter widths

  /** The if-chain picks the width of the first threshold the wavelength exceeds. */
  lemma WidthForIsFirstExceeded(l: real)
    ensures WidthFor(l) == match FirstExceeded(l, 0) case None => None case Some(k) => Some(BandWidths[k])
  {
    var r := FirstExceeded(l, 0);
    if r.Some? {
      assert forall j :: 0 <= j < r.value ==> l <= Thresholds[j];
    }
  }

  /** A longer wavelength never gets a narrower width, and keeps a width. */
  lemma WidthForMonotone(l1: real, l2: real)
    requires l1 <= l2 && WidthFor(l1).Some?
    ensures WidthFor(l2).Some? && WidthFor(l1).value <= WidthFor(l2).value
  {
  }

  /**
    filter_width has one entry per wavelength above 9000, in order: it is
    never longer than lamb_img, and as long exactly when every wavelength
    exceeds 9000.
  */
  lemma {:induction false} WidthsLength(ls: seq<real>)
    ensures |Widths(ls)| <= |ls|
    ensures |Widths(ls)| == |ls| <==> forall i :: 0 <= i < |ls| ==> ls[i] > 9000.0
    decreases |ls|
  {
    if ls != [] {
      WidthsLength(ls[1..]);
      assert forall i :: 1 <= i < |ls| ==> ls[i] == ls[1..][i - 1];
      if |Widths(ls)| == |ls| {
        assert WidthFor(ls[0]).Some?;
      }
    }
  }

  // ---------------------------------------------------------------------
  // Lemmas: the objects

  lemma AppendCancelLeft(x: string, a: string, b: string)
    requires x + a == x + b
    ensures a == b
  {
    assert a == (x + a)[|x|..];
  }

  lemma AppendCancelRight(a: string, b: string, y: string)
    requires a + y == b + y
    ensures a == b
  {
    assert a == (a + y)[..|a|];
  }

  /** os.path.join with one directory is injective on relative names. */
  lemma PathJoinInjective(dir: string, x: string, y: string)
    requires !StartsWith(x, "/") && !StartsWith(y, "/")
    requires PathJoin(dir, x) == PathJoin(dir, y)
    ensures x == y
  {
    if dir == [] || EndsWith(dir, "/") {
      AppendCancelLeft(dir, x, y);
    } else {
      AppendCancelLeft(dir + "/", x, y);
    }
  }

  lemma ObjectNameInjective(s1: string, s2: string, ext: string)
    requires "photz_" + s1 + ext == "photz_" + s2 + ext
    ensures s1 == s2
  {
    assert "photz_" + s1 + ext == "photz_" + (s1 + ext);
    assert "photz_" + s2 + ext == "photz_" + (s2 + ext);
    AppendCancelLeft("photz_", s1 + ext, s2 + ext);
    AppendCancelRight(s1, s2, ext);
  }

  /** Distinct ids never share an output file of the same kind. */
  lemma ObjectFilesDistinct(dir: string, a: int, b: int, ext: string)
    requires ObjectFile(dir, a, ext) == ObjectFile(dir, b, ext)
    ensures a == b
  {
    var na := "photz_" + IntToStr(a) + ext;
    var nb := "photz_" + IntToStr(b) + ext;
    assert na[0] == 'p' && nb[0] == 'p';
    PathJoinInjective(dir, na, nb);
    ObjectNameInjective(IntToStr(a), IntToStr(b), ext);
    IntToStrInjective(a, b);
  }

  /** The outcome of one id carries that id, and is a skip exactly when its obs_sed file is missing. */
  lemma PlotOneOutcome(dir: string, id: int, files: SedFiles)
    ensures var one := PlotOne(dir, id, files);
      one.Success? ==> OutcomeFor(one.value, dir, id, files)
  {
  }

  /** The loop handles a prefix of the ids, all of them when nothing is raised. */
  lemma {:induction false} PlotsLength(dir: string, ids: seq<int>, files: SedFiles)
    ensures var r := Plots(dir, ids, files);
      |r.outcomes| <= |ids| && (r.err.None? ==> |r.outcomes| == |ids|)
    decreases |ids|
  {
    if ids != [] {
      PlotsLength(dir, ids[1..], files);
      PlotsCons(dir, ids, files);
    }
  }

  /** The outcome recorded for `id`: it carries the id, and is a skip exactly when the id's obs_sed file is missing. */
  predicate OutcomeFor(o: ObjectOutcome, dir: string, id: int, files: SedFiles) {
    o.id == id && (o.Skipped? <==> ObjectFile(dir, id, ".obs_sed") !in files.obsSed)
  }

  /** Outcomes follow ids position by position. */
  predicate OutcomesFollow(os: seq<ObjectOutcome>, dir: string, ids: seq<int>, files: SedFiles) {
    forall k :: 0 <= k < |os| && k < |ids| ==> OutcomeFor(os[k], dir, ids[k], files)
  }

  lemma OutcomesFollowCons(o: ObjectOutcome, rest: seq<ObjectOutcome>, dir: string, ids: seq<int>, files: SedFiles)
    requires ids != [] && OutcomeFor(o, dir, ids[0], files) && OutcomesFollow(rest, dir, ids[1..], files)
    ensures OutcomesFollow([o] + rest, dir, ids, files)
  {
    var os := [o] + rest;
    forall k | 1 <= k < |os| && k < |ids| ensures OutcomeFor(os[k], dir, ids[k], files) {
      var m := k - 1;
      assert OutcomeFor(rest[m], dir, ids[1..][m], files);
      assert os[k] == rest[m] && ids[k] == ids[1..][m];
    }
  }

  /** The k-th outcome belongs to the k-th id, and is a skip exactly when that id's obs_sed file is missing. */
  lemma {:induction false} PlotsOutcomes(dir: string, ids: seq<int>, files: SedFiles)
    ensures OutcomesFollow(Plots(dir, ids, files).outcomes, dir, ids, files)
    decreases |ids|
  {
    if ids != [] {
      PlotsOutcomes(dir, ids[1..], files);
      PlotsCons(dir, ids, files);
      PlotOneOutcome(dir, ids[0], files);
      var one := PlotOne(dir, ids[0], files);
      if one.Success? {
        OutcomesFollowCons(one.value, Plots(dir, ids[1..], files).outcomes, dir, ids, files);
      }
    }
  }

  /**
    When no exception stops the loop, there is one outcome per id, in the
    order of the ids, and an id is skipped exactly when its obs_sed file is
    missing; an exception stops the loop after a prefix of the ids.
  */
  lemma PlotsFollowIds(dir: string, ids: seq<int>, files: SedFiles)
    ensures var r := Plots(dir, ids, files);
      && |r.outcomes| <= |ids|
      && (forall k :: 0 <= k < |r.outcomes| ==>
            && r.outcomes[k].id == ids[k]
            && (r.outcomes[k].Skipped? <==> ObjectFile(dir, ids[k], ".obs_sed") !in files.obsSed))
      && (r.err.None? ==> |r.outcomes| == |ids|)
  {
    PlotsLength(dir, ids, files);
    PlotsOutcomes(dir, ids, files);
    var r := Plots(dir, ids, files);
    assert forall k :: 0 <= k < |r.outcomes| ==> OutcomeFor(r.outcomes[k], dir, ids[k], files);
  }

  /** The loop handles the first id, then goes on with the rest unless that raised. */
  lemma PlotsCons(dir: string, ids: seq<int>, files: SedFiles)
    requires ids != []
    ensures var one := PlotOne(dir, ids[0], files);
      && (one.Failure? ==> Plots(dir, ids, files) == PlotRun([], Some(one.error)))
      && (one.Success? ==>
            Plots(dir, ids, files) == PlotRun([one.value] + Plots(dir, ids[1..], files).outcomes, Plots(dir, ids[1..], files).err))
  {
  }

  // ---------------------------------------------------------------------
  // The object

  class Eazy {
    const eazyPath: string
    var params: Params
    var outputDir: string

    /** The parameters are a dict: each key once. */
    predicate Valid()
      reads this
    {
      UniqueKeys(params)
    }

    /** Lines 12-15 when params holds OUTPUT_DIRECTORY. */
    constructor (eazyPath: string, params: Params)
      requires UniqueKeys(params)
      requires Lookup(params, "OUTPUT_DIRECTORY").Some?
      ensures Valid()
      ensures this.eazyPath == eazyPath && this.params == params
      ensures outputDir == Lookup(params, "OUTPUT_DIRECTORY").value
    {
      this.eazyPath := eazyPath;
      this.params := params;
      outputDir := Lookup(params, "OUTPUT_DIRECTORY").value;
    }

    /** Lines 12-15: without OUTPUT_DIRECTORY line 15 raises KeyError and there is no object. */
    static method Create(eazyPath: string, params: Params) returns (r: Option<Eazy>)
      requires UniqueKeys(params)
      ensures r.None? <==> Lookup(params, "OUTPUT_DIRECTORY").None?
      ensures r.Some? ==> fresh(r.value) && r.value.Valid() && r.value.eazyPath == eazyPath && r.value.params == params
                          && r.value.outputDir == Lookup(params, "OUTPUT_DIRECTORY").value
    {
      if Lookup(params, "OUTPUT_DIRECTORY").None? {
        return None;
      }
      var e := new Eazy(eazyPath, params);
      return Some(e);
    }

    /** Lines 20-24: the path of the parameter file and the text written to it, line by line. */
    method MakeParam() returns (path: string, text: string)
      ensures path == eazyPath + "/zphot.param"
      ensures text == ParamText(params)
    {
      path := eazyPath + "/zphot.param";
      text := [];
      for k := 0 to |params|
        invariant ParamText(params) == text + ParamText(params[k..])
      {
        assert params[k..][1..] == params[k + 1..];
        var entry := params[k];
        text := text + ParamLine(entry.0, entry.1);
      }
      assert params[|params|..] == [];
    }

    /**
      Lines 31-44 on the catalog's contents `table`: the row loop for every
      filter, the rename of 'id', then the new catalog name in the written
      file and in params. `toFlux` is the magnitude-to-flux formula of line
      39 and `errScale` the factor 2.5/ln 10 of line 40.
    */
    method ConvertFluxes(table: Table, filts: seq<string>, toFlux: real -> real, errScale: real)
      returns (written: Option<Written>, err: Option<FluxError>)
      requires Valid() && WellFormed(table)
      modifies this`params
      ensures Valid()
      ensures var r := FluxOutcome(old(params), table, filts, toFlux, errScale);
        && (r.Success? ==> written == Some(r.value) && err.None?
                           && params == Assign(old(params), "CATALOG_FILE", r.value.path))
        && (r.Failure? ==> written.None? && err == Some(r.error) && params == old(params))
    {
      written := None;
      var cat := Lookup(params, "CATALOG_FILE");
      if cat.None? {
        err := Some(MissingParam("CATALOG_FILE"));
        return;
      }
      var converted := ConvertFilters(table, filts, toFlux, errScale);
      if converted.Failure? {
        err := Some(converted.error);
        return;
      }
      var t := converted.value;
      var renamed := RenameColumn(t, "id", "#id");
      if renamed.Failure? {
        err := Some(renamed.error);
        return;
      }
      var path := FluxCatalogName(cat.value);
      written := Some(Written(path, renamed.value));
      AssignKeepsUniqueKeys(params, "CATALOG_FILE", path);
      params := Assign(params, "CATALOG_FILE", path);
      err := None;
    }

    /**
      Lines 65-194: record the output directory, fall back to the ids of
      photz.zout, then handle the objects in order. The ids of photz.zout and
      the EAZY output files are inputs.
    */
    method MakePlots(dir: string, idList: seq<int>, zoutIds: seq<int>, files: SedFiles)
      returns (outcomes: seq<ObjectOutcome>, err: Option<PlotError>)
      modifies this`outputDir
      ensures outputDir == dir
      ensures PlotRun(outcomes, err) == MakePlotsOutcome(params, dir, idList, zoutIds, files)
    {
      outputDir := dir;
      outcomes := [];
      var ids := if |idList| == 0 then zoutIds else idList;
      if Lookup(params, "CATALOG_FILE").None? {
        err := Some(NoCatalogParam);
        return;
      }
      outcomes, err := PlotObjects(dir, ids, files);
    }
  }

  /** The loop of lines 33-40 over the filters, on a copy of the table. */
  method ConvertFilters(table: Table, filts: seq<string>, toFlux: real -> real, errScale: real)
    returns (r: Result<Table, FluxError>)
    requires WellFormed(table)
    ensures r == ConvertAll(table, filts, toFlux, errScale)
  {
    var t := table;
    for j := 0 to |filts|
      invariant WellFormed(t)
      invariant ConvertAll(table, filts, toFlux, errScale) == ConvertAll(t, filts[j..], toFlux, errScale)
    {
      assert filts[j..][1..] == filts[j + 1..];
      var filt := filts[j];
      var a := ColumnIndex(t, filt);
      if a.None? {
        return Failure(MissingColumn(filt));
      }
      var n := |t[a.value].cells|;
      if n > 0 {
        // line 37 or 40 looks the error column up at the first row
        var b := ColumnIndex(t, ErrName(filt));
        if b.None? {
          return Failure(MissingColumn(ErrName(filt)));
        }
        var mags, errs := ConvertRows(t[a.value].cells, t[b.value].cells, toFlux, errScale);
        t := t[a.value := Column(filt, mags)][b.value := Column(ErrName(filt), errs)];
      }
    }
    assert filts[|filts|..] == [];
    return Success(t);
  }

  /** The loop of lines 85-194 over the ids. */
  method PlotObjects(dir: string, ids: seq<int>, files: SedFiles) returns (outcomes: seq<ObjectOutcome>, err: Option<PlotError>)
    ensures PlotRun(outcomes, err) == Plots(dir, ids, files)
  {
    outcomes := [];
    for k := 0 to |ids|
      invariant Plots(dir, ids, files) == Then(outcomes, Plots(dir, ids[k..], files))
    {
      PlotsStep(dir, ids, k, files);
      var r := PlotOne(dir, ids[k], files);
      if r.Failure? {
        err := Some(r.error);
        return;
      }
      ThenAppend(outcomes, [r.value], Plots(dir, ids[k + 1..], files));
      outcomes := outcomes + [r.value];
    }
    assert ids[|ids|..] == [];
    err := None;
  }

  /** The row loop of lines 34-40 for one filter whose error column is `errs`. */
  method ConvertRows(mags: seq<real>, errs: seq<real>, toFlux: real -> real, errScale: real)
    returns (mags': seq<real>, errs': seq<real>)
    requires |errs| == |mags|
    ensures mags' == ConvertedMags(mags, errs, toFlux, errScale)
    ensures errs' == ConvertedErrs(mags, errs, toFlux, errScale)
  {
    mags', errs' := mags, errs;
    for i := 0 to |mags|
      invariant |mags'| == |errs'| == |mags|
      invariant forall r :: 0 <= r < i ==> mags'[r] == ConvertCell(mags[r], errs[r], toFlux, errScale).0
      invariant forall r :: 0 <= r < i ==> errs'[r] == ConvertCell(mags[r], errs[r], toFlux, errScale).1
      invariant forall r :: i <= r < |mags| ==> mags'[r] == mags[r] && errs'[r] == errs[r]
    {
      if mags'[i] < 1.0 {
        mags' := mags'[i := -100.0];
        errs' := errs'[i := 0.0];
      } else {
        mags' := mags'[i := toFlux(mags'[i])];
        // line 40 reads the flux written on line 39
        errs' := errs'[i := errScale * errs'[i] * mags'[i]];
      }
    }
  }

  /** Objects already handled, followed by a run over the rest. */
  function Then(done: seq<ObjectOutcome>, rest: PlotRun): PlotRun {
    PlotRun(done + rest.outcomes, rest.err)
  }

  lemma PlotsStep(dir: string, ids: seq<int>, k: nat, files: SedFiles)
    requires k < |ids|
    ensures Plots(dir, ids[k..], files) ==
      match PlotOne(dir, ids[k], files)
      case Failure(e) => PlotRun([], Some(e))
      case Success(o) => Then([o], Plots(dir, ids[k + 1..], files))
  {
    assert ids[k..][0] == ids[k] && ids[k..][1..] == ids[k + 1..];
  }

  lemma ThenAppend(a: seq<ObjectOutcome>, b: seq<ObjectOutcome>, r: PlotRun)
    ensures Then(a, Then(b, r)) == Then(a + b, r)
  {
    assert a + (b + r.outcomes) == (a + b) + r.outcomes;
  }
}
