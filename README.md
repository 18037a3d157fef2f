# rorteazy bookkeeping, in Dafny

This project models the logic of its own that the rorteazy pipeline wraps
around the astronomy libraries it calls. Two classes are covered.

`PrepImg` prepares JWST images:
- the filter-token scan of file names;
- the lists `filts`, `sci_img`, `wht_img`, `bkg_img` and `cats` that
  `__init__`, `bkgsub` and `tweakwcs` build, with their derived file names;
- the choice of reference filter;
- the brute-force search over integer pixel offsets, with its 50-match
  acceptance rule.

`Eazy` drives the EAZY photometric-redshift code:
- the parameter file `makeparam` writes;
- the magnitude-to-flux rewrite of the catalog in `convertFluxes`;
- the per-object bookkeeping of `makePlots`: file names, skipping, the
  redshift labels of the template header, and the filter widths.

Files:

- `wrappers.dfy`: `Option` and `Result`.
- `strings.dfy`: the Python string operations the code relies on:
  - ASCII `lower`/`upper`, `in`, `str.replace`, `str.split()` and `str(int)`;
  - `os.path.basename` and `os.path.join`.
- `filter_token.dfy`: the scan for `f<digit>??w|m` in a lower-cased basename.
  - `FindFrom` is its reference definition.
  - `ScanForFilter` is the indexed loop with `break`, proved equal to it.
- `offset_search.dfy`: the 6 x 6 offset grid, the running best with `>=`,
  and the threshold.
  - The catalog matcher is a parameter: a deterministic function from its
    context and the shift to the matched index lists.
- `prep_img.dfy`, the `PrepImg` class:
  - fields for the lists;
  - `Load` for the list-building part of `__init__`, `Bkgsub`,
    `AssignCatalogs` and `TweakWcs`;
  - the loops as methods proved against the functions `Run`, `Init`,
    `CatalogsFor`, `AlignFrom` and `Tweak`, and lemmas about those functions.
- `eazy.dfy`, the `Eazy` class:
  - `params` is a sequence of key/value pairs in insertion order.
  - `MakeParam`, `ConvertFluxes` and `MakePlots` are its methods.
  - The loop of `MakeParam` is in the class; the other loops are
    module-level methods. They are proved against `ParamText`,
    `ConvertAll`, `Widths` and `Plots`.
  - The class invariant `Valid` is that the keys of `params` are distinct,
    as in a Python dict.

Python exceptions are values:
- each operation returns the error it would raise;
- where the source has already appended to a list when it raises, the model
  carries those partial lists.

The local `filt` of `__init__` keeps its value from one image to the next.
It is therefore part of the loop state, as an `Option`. `None` stands for
the `UnboundLocalError` raised when no image has assigned it yet.

Two behaviours of the code are modelled as written:

- In read mode, the new file pattern is `sci_img[0].replace(filts[0], '*')`.
  The filter there is upper-cased, while the path keeps its own case. For
  the usual lower-case JWST names, the replacement therefore finds nothing
  and the "pattern" is the first science path itself (`ReadInitPattern`).
- The `[i+4]` lookup of the token scan runs off the end of the name at the
  `f` of `.fits`. A name with no earlier token therefore raises
  `IndexError` and never reuses the previous filter
  (`FitsNameWithoutTokenOverruns`, `FitsInputsKeepListsInStep`).

The `>=` at PrepImg.py:252 may be unintended. The model keeps it and proves
its consequence: ties go to the shift scanned last.

## Model

| member | source | states |
|---|---|---|
| Strings.Basename | PrepImg.py:57 | `os.path.basename` returns the slash-free suffix of the path that is either the whole path or starts right after a `/`, i.e. everything after the last `/` |
| Strings.BasenameAppend | PrepImg.py:57 | appending slash-free text to a path appends it to its basename |
| Strings.PathJoinAppend | PrepImg.py:71 | `os.path.join(d, b + c)` is `os.path.join(d, b) + c` for a non-empty `b` |
| Strings.ReplaceAllAbsent | PrepImg.py:105 | `replace` leaves a string that does not contain the pattern unchanged |
| Strings.ReplaceAllAtEnd | PrepImg.py:87 | `replace` on `p + pat` rewrites only the trailing occurrence, when `p` does not contain the pattern and the pattern's first character does not recur in it |
| Strings.ReplaceAllTrailing | PrepImg.py:87 | for such a pattern, `replace` on `p + pat` is `replace` on `p` followed by the replacement, whatever `p` holds |
| Strings.ReplaceAllUnchangedIff | PrepImg.py:87 | with a replacement longer than the pattern, `replace` returns the string itself exactly when the pattern does not occur in it |
| Strings.MissingCharNotContained | PrepImg.py:87 | a string lacking one of the pattern's characters does not contain the pattern |
| Strings.LowerAppend | PrepImg.py:57 | lower-casing distributes over concatenation |
| Strings.UpperIdempotent | PrepImg.py:201 | `filt.upper()` of an already upper-cased filter changes nothing |
| Strings.TakeWord | eazy.py:98 | the first word is the longest whitespace-free prefix, ended by whitespace or the end of the line |
| Strings.SplitWs | eazy.py:98-99 | `split()` yields non-empty words that contain no whitespace, whitespace being the characters for which Python's `str.isspace()` holds |
| Strings.SplitWsAllSpace | eazy.py:98-99 | a line of whitespace only, such as the newline `readlines()` keeps, splits into no words |
| Strings.SplitJoinSpaced | eazy.py:98-99 | `split()` recovers the words of a line written as words separated by single spaces and ended by any whitespace |
| Strings.NatToStr | eazy.py:87-89 | `str(n)` is a non-empty string of decimal digits without a leading zero; it is one digit exactly when `n < 10` |
| Strings.NatToStrValue | eazy.py:87-89 | the digits of `str(n)` read back, in base 10, as `n` |
| Strings.NatToStrInjective | eazy.py:87-89 | distinct non-negative ids print differently |
| Strings.IntToStrInjective | eazy.py:87-89 | distinct ids print differently, negative ones included |
| FilterToken.FindFrom | PrepImg.py:58-62 | a found token starts at the first position where the scan stops and satisfies the test; an overrun is the first stop, an `f` fewer than 5 characters from the end; when nothing is found, no position stops the scan |
| FilterToken.TokenName | PrepImg.py:60 | the filter is 5 characters: `F`, a digit, two characters, then `W` or `M` |
| FilterToken.TokenNameIsUpper | PrepImg.py:60 | a filter cut from the lower-cased name and upper-cased is unchanged by a second `.upper()` |
| FilterToken.ScanForFilter | PrepImg.py:58-62 | the indexed loop that breaks at the first token, or raises at the overrunning lookup, returns what the reference scan returns |
| FilterToken.FitsNameAlwaysStops | PrepImg.py:59 | on a name ending in `.fits` the scan either finds a token or raises; it never runs through |
| FilterToken.FitsNameWithoutTokenOverruns | PrepImg.py:59 | a `.fits` name whose stem holds no token raises `IndexError` at the `f` of `.fits` |
| OffsetSearch.Cand | PrepImg.py:246-247 | the k-th shift tried lies in the grid and has scan rank k |
| OffsetSearch.SearchOffset | PrepImg.py:242-255 | the nested loop leaves (xi_best, yi_best, matches_best) equal to the fold over the 36 shifts; that result lies in the grid, its count is the maximum, and every later shift counts strictly less |
| OffsetSearch.MatchAtBestOffset | PrepImg.py:257-267 | re-matching at the chosen shift aligns exactly when the fresh match has at least 50 pairs, and then uses those pairs |
| OffsetSearch.SearchPrefixInvariant | PrepImg.py:246-255 | after n shifts the running best is the last maximiser among them |
| OffsetSearch.BestOffsetIsLastMaximum | PrepImg.py:242-255 | the chosen shift is in the grid, attains the maximum count, and no shift scanned after it ties |
| OffsetSearch.RankInjective | PrepImg.py:246-247 | the scan order visits each shift once |
| OffsetSearch.LastMaximumIsUnique | PrepImg.py:242-255 | the last-maximiser property determines the result |
| OffsetSearch.AllZeroChoosesLastShift | PrepImg.py:242-255 | with every count 0 the result is (2, 2, 0) |
| OffsetSearch.StrictMaximumRecovered | PrepImg.py:242-255 | a shift that beats every other one is found, with its count |
| OffsetSearch.TieGoesToLaterShift | PrepImg.py:252 | of two top-scoring shifts, the earlier one in scan order is never chosen |
| OffsetSearch.AlignedIffSomeShiftReachesThreshold | PrepImg.py:258-267 | the image is aligned exactly when some grid shift reaches 50 matches, and the pairs used are those of the chosen shift |
| PrepImg.SplitImages | PrepImg.py:55-76 | the i2d loop yields the lists and the error of the reference run, including the stale-filter and overrun cases |
| PrepImg.ReadImages | PrepImg.py:86-102 | the read-mode loop yields the lists and the error of the reference run, including `SameFileError` when the copy is the file itself |
| PrepImg.CopyOntoItselfIff | PrepImg.py:87-88 | a read-mode step raises `SameFileError`, leaving the lists as they were, exactly when the path holds no `.fits` (the replace is case-sensitive) |
| PrepImg.UpperCaseExtensionCopiesOntoItself | PrepImg.py:87-88 | `d/x_f200w_sci.FITS` is copied onto itself: the step raises and appends nothing |
| PrepImg.Initialize | PrepImg.py:32-123 | the lists, the file pattern and the error are those of `Init`: the loop of the mode in force, the pattern rebuilt in read mode, `IndexError` on an empty list, and the error of `max()` with no science image |
| PrepImg.SplitAppendsOneEntryPerImage | PrepImg.py:55-76 | when every name holds a token, each image appends its filter and `{dir}/{field}_{FILT}_sci.fits` and `_wht.fits`, in input order, and nothing is raised |
| PrepImg.ScanNameOfFitsPath | PrepImg.py:57 | the scanned name of a `.fits` path ends in `.fits` |
| PrepImg.FitsInputsKeepListsInStep | PrepImg.py:55-76 | for `.fits` inputs a run that raises nothing adds exactly one entry per image to each of filts, sci_img and wht_img |
| PrepImg.ReadClassifiesEveryImage | PrepImg.py:86-102 | in read mode each image's `_prep` copy goes to sci_img when its lower-cased path holds `sci` or `drz`, adding one filter each; otherwise to wht_img when it holds `wht`; otherwise nowhere; input order is kept |
| PrepImg.ReadAppendsOwnFilters | PrepImg.py:86-102 | when every `_prep` copy's scan stops, a read-mode run that raises nothing appends to filts, for each sci copy in order, the filter scanned from that copy's own name |
| PrepImg.PrepNameOfFitsPath | PrepImg.py:87 | the `_prep` copy of a `.fits` file ends in `.fits` once lower-cased |
| PrepImg.ReadFitsInputsUseOwnFilter | PrepImg.py:86-102 | with `.fits` inputs, a read-mode run that raises nothing appends each sci copy's own filter and never a stale one |
| PrepImg.InitFiltersAreUpper | PrepImg.py:55-102 | every filter `__init__` records is upper case, so the `.upper()` of line 201 leaves it unchanged |
| PrepImg.ReadInitPattern | PrepImg.py:97-105 | after a successful read-mode `__init__`, filts and sci_img have equal non-zero length; if the first filter does not occur in the first sci path, the pattern is that path |
| PrepImg.RunReadIgnoresNames | PrepImg.py:86-102 | the read mode depends on neither the image directory nor the field |
| PrepImg.PrepNameOfFitsFile | PrepImg.py:87 | `p.fits` is copied to `p_prep.fits` |
| PrepImg.BkgNameOfSplitImage | PrepImg.py:164 | the background-subtracted copy of a split science image is `{dir}/{field}_{FILT}_sci_bkgsub.fits`, the sci name of line 71 with `.fits` replaced |
| PrepImg.IndexOf | PrepImg.py:185 | `list.index` returns the first position holding the value, and fails exactly when the value is absent |
| PrepImg.RefIndex | PrepImg.py:178-185 | the reference index is 0 without a name (`IndexError` on no filters); otherwise it is the first position of the upper-cased name (`ValueError` when absent) |
| PrepImg.MatchingCats | PrepImg.py:200-202 | the catalogs attached to a filter are files whose names contain it |
| PrepImg.MatchingCatsExactly | PrepImg.py:200-202 | a catalog is attached to a filter exactly when it is one of the files and its name contains the filter |
| PrepImg.OneCatalogPerFilter | PrepImg.py:198-202 | when each filter occurs in exactly one catalog name, cats has one entry per filter, in filter order, and that entry contains the filter |
| PrepImg.AlignEach | PrepImg.py:218-280 | the driver loop records what the reference recursion `AlignFrom` records: the results and the first `IndexError` |
| PrepImg.AlignFromVisitsInOrder | PrepImg.py:218-260 | the loop handles indices in ascending order, skipping the reference, each with its filter and the offset search against the reference catalog |
| PrepImg.AlignFromCount | PrepImg.py:218-223 | a loop that raises nothing handles every index except the reference |
| PrepImg.TweakSkipsReference | PrepImg.py:178-223 | tweakwcs handles 0, 1, ... with the reference left out, and one result per other filter when nothing is raised |
| PrepImg.PrepImg.constructor | PrepImg.py:22-36 | stores the settings, sets the default pattern `{field}_*_sci.fits`, and starts with empty lists |
| PrepImg.PrepImg.Load | PrepImg.py:32-123 | the fields hold the lists, pattern and error of `Init` for the sorted images; bkg_img is empty and cats is untouched |
| PrepImg.PrepImg.Bkgsub | PrepImg.py:155-167 | appends, for each sci path in order, the path with `.fits` replaced by `_bkgsub.fits` |
| PrepImg.PrepImg.AssignCatalogs | PrepImg.py:198-202 | cats becomes, filter by filter, every catalog whose name contains the filter, in glob order |
| PrepImg.PrepImg.TweakWcs | PrepImg.py:175-280 | results and error are those of `Tweak`; cats is reassigned once the reference index is known |
| Eazy.Lookup | eazy.py:15 | `params[key]` is defined exactly when some entry has the key, and then returns that entry's value |
| Eazy.KeyIndex | eazy.py:44 | the position of a key is that of the first entry holding it; no position means no entry holds it |
| Eazy.Assign | eazy.py:44 | after `params[key] = v` the key maps to `v`, every other key is unchanged, and the dict grows only for a new key |
| Eazy.AssignNewKeyGoesLast | eazy.py:44 | assigning a new key appends its entry after all the others, so `items()` lists it last |
| Eazy.AssignKeepsPlace | eazy.py:44 | assigning an existing key replaces the value at its position; every entry keeps its place in `items()` |
| Eazy.AssignKeepsUniqueKeys | eazy.py:44 | assignment keeps the keys distinct |
| Eazy.ParamTextRoundTrip | eazy.py:20-24 | the written text reads back, line by line, as exactly the entries in insertion order |
| Eazy.Eazy.constructor | eazy.py:12-15 | stores the path and a dict's params (distinct keys); output_dir is `params['OUTPUT_DIRECTORY']` |
| Eazy.Eazy.Create | eazy.py:12-15 | construction fails exactly when OUTPUT_DIRECTORY is missing (KeyError); the object built keeps the keys distinct |
| Eazy.Eazy.MakeParam | eazy.py:20-24 | writes to `{eazypath}/zphot.param` the lines `{param} {value}\n`, one per entry, in order |
| Eazy.ColumnIndex | eazy.py:34 | a found column has the name; a missing one is absent from the table |
| Eazy.ConvertOne | eazy.py:34-40 | converting one filter keeps the table well formed and its column names |
| Eazy.ConvertAll | eazy.py:33-40 | converting the filters one after another keeps the table well formed and its column names |
| Eazy.ConvertOneFails | eazy.py:34-40 | a filter fails exactly when its column is missing, or when there are rows and `{filt}_err` is missing; otherwise every other column is unchanged |
| Eazy.ConvertOneRows | eazy.py:35-40 | per row: a magnitude below 1 gives -100 and error 0; otherwise it gives the flux, with error = scale times old error times the flux just written |
| Eazy.ConvertRows | eazy.py:34-40 | the in-place row loop, whose line 40 reads the cell line 39 wrote, yields exactly the converted columns |
| Eazy.ConvertFilters | eazy.py:33-40 | the filter loop on the table yields what `ConvertAll` yields, including the first missing column |
| Eazy.ConvertAllKeepsOtherColumns | eazy.py:33-40 | a column that no listed filter names, directly or as `_err`, comes out unchanged |
| Eazy.RenameIdOnly | eazy.py:42 | the rename changes only the name `id` to `#id`, keeps every cell, and fails without `id` or when `#id` already exists |
| Eazy.FluxCatalogNameOfTxt | eazy.py:43-44 | `p.txt` becomes `p_flux.txt` |
| Eazy.ConvertFluxesUpdatesCatalog | eazy.py:43-44 | the file written and the new CATALOG_FILE are the same name; every other parameter is unchanged |
| Eazy.Eazy.ConvertFluxes | eazy.py:31-44 | writes the converted and renamed table under the `_flux` name and updates CATALOG_FILE, keeping the keys distinct; on any exception it writes nothing and leaves params as they were |
| Eazy.RedshiftLabelsOfHeader | eazy.py:98-105 | for header lines of space-separated words ended by any whitespace (the kept newline included), z_a is word 2 of line 1, joined with word 3 when word 2 is `z=`; likewise z_p on line 2 with `z_prior=`; two-word lines are covered |
| Eazy.HeaderWithoutSpaceLabels | eazy.py:97-105 | the header lines `# z=10.1234\n` and `# z_prior=10.1000\n` give the labels `z=10.1234` and `z_prior=10.1000` |
| Eazy.LoneKeyWithoutValueFails | eazy.py:102-103 | a bare `z=` with nothing after it but whitespace raises `IndexError` |
| Eazy.LabelsNeedHeader | eazy.py:98-99 | parsing succeeds only when lines 1 and 2 exist and each has at least two tokens |
| Eazy.FirstExceeded | eazy.py:126-141 | the index returned is the first threshold the wavelength exceeds; no index means it exceeds none |
| Eazy.WidthForIsFirstExceeded | eazy.py:126-141 | the if-chain gives the width of the first threshold exceeded, in the order 4.4e4, 3.5e4, 2.7e4, 1.9e4, 1.5e4, 0.9e4, and nothing at or below 0.9e4 |
| Eazy.WidthForMonotone | eazy.py:126-141 | a longer wavelength never gets a narrower width |
| Eazy.WidthsLength | eazy.py:124-141 | filter_width is never longer than lamb_img, and is as long exactly when every wavelength exceeds 0.9e4 |
| Eazy.FilterWidths | eazy.py:124-141 | the append loop yields one width per wavelength that has one, in order |
| Eazy.ObjectFilesDistinct | eazy.py:87-89 | distinct ids never share an output file of the same kind |
| Eazy.PathJoinInjective | eazy.py:87-89 | joining one directory with two different relative names gives two different paths |
| Eazy.PlotsCons | eazy.py:85-93 | the loop handles the first id, then goes on with the rest unless that raised |
| Eazy.PlotsLength | eazy.py:85-93 | the loop handles a prefix of the ids, all of them when nothing is raised |
| Eazy.PlotsOutcomes | eazy.py:85-93 | the k-th outcome carries the k-th id and is a skip exactly when that id's obs_sed file is missing |
| Eazy.PlotsFollowIds | eazy.py:85-93 | one outcome per id, in id order, skipped exactly when the obs_sed file is missing; every id has an outcome when nothing is raised |
| Eazy.PlotOneOutcome | eazy.py:87-93 | the outcome of one id carries that id, and is a skip exactly when its obs_sed file is missing |
| Eazy.PlotObjects | eazy.py:85-194 | the loop over ids yields what `Plots` yields, stopping at the first exception |
| Eazy.Eazy.MakePlots | eazy.py:65-194 | records the output directory, uses the zout ids when id_list is empty, and handles the ids as `MakePlotsOutcome` says |

## Left out

- File discovery (`glob`, sorting), FITS reading and writing, header updates, the file contents `shutil.copy` copies and file closing are I/O. The `SameFileError` that `shutil.copy` raises when the `_prep` name is the path itself depends on the name alone and is modelled. The sorted image list, the catalog file names, the template lines and the EAZY output files are inputs.
- The zeropoint arithmetic and the max/min of zeropoints are floating-point numerics. Only the error of `max()` on an empty list is kept.
- Reprojection, Background2D, SExtractor, TPMatch internals, `fit_wcs` and `update_wcs` are foreign code. The matcher is an uninterpreted deterministic function, and an alignment is a decision value.
- Eazy.WidthFor: wavelengths are exact reals. Each width is the real value of the double Python computes, `F444WWidth` included (5530.0000000000009094947017729282379150390625). A NaN or infinite wavelength is not modelled.
- The magnitude-to-flux formula of eazy.py line 39 is float exponentiation. It is the parameter `toFlux`, and the factor 2.5/ln 10 is the parameter `errScale`.
- Eazy.ConvertOne: does not model the cell type of the astropy column. An integer column would truncate the assigned values; the model holds exact reals.
- `run` (`os.mkdir`, `os.chdir`, `os.system`), plotting, the RGB cutout with its catalog row lookup, `tqdm` and `print` are I/O or external processes.
- The `ValueError` that matplotlib raises when filter_width is shorter than lamb_img is not modelled. `WidthsLength` states when that happens.
- Parameter values are taken as already formatted with `f'{value}'`; Python's formatting of non-string values is not modelled.
- `params={}` is a shared mutable default, so two `Eazy` objects built without params would share one dict. Aliasing of the dict is not modelled.
- The `file` argument of `PrepImg.__init__` serves only for discovery. The source stores it as `self.file` (line 25); the model does not store it.
- The `cats` attribute does not exist in the source until `tweakwcs` runs. The model starts it empty.
- Strings are sequences of characters with ASCII case mapping only; Unicode case folding is not modelled. Whitespace for `split()` is Python's full `isspace()` set.
- The second weight HDU list opened at PrepImg.py line 229 is never closed in the source; file handles are not modelled.
