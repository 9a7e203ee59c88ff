# Box blocking by report comparison — a Dafny model of `utils.py`

The application takes the delinquency spreadsheets of five storage locations. It recognises
each spreadsheet's location and report date from the uploaded file name, then compares, per
location, the boxes that are five or more days overdue in the two latest reports:

- a box to **block** is overdue in the current report and was not in the previous one;
- a box to **unblock** was overdue in the previous report and is absent from the current one
  altogether.

This project models that core (`utils.py`) in Dafny and proves what it promises.

| module | file | models |
|---|---|---|
| `Wrappers` | `wrappers.dfy` | `Option` and `Result`; a `Failure` stands for a Python exception |
| `Text` | `text.dfy` | `_strip_accents`, `str.lower`/`str.upper`/`str.strip`, the two `re.sub` calls of `_norm_text`, `str.split()` and `" ".join` |
| `Order` | `order.dfy` | Python's string order and `sorted(list(s))` of a set of strings |
| `Dates` | `dates.dfy` | `int()`, `"{:02d}"`, `_normalize_date`, `DATE_PATTERN` with its `search` and `sub`, `pick_two_dates` |
| `Units` | `units.dfy` | `UNIDADES_VALIDAS`, `os.path.splitext`, the exact substring scan, `_fuzzy_unit`, `extract_unit_and_date_from_name` |
| `Boxes` | `boxes.dfy` | `COL_DIAS`/`COL_BOXES`, `split_boxes`, `_read_sheet`, `load_boxes_ge5`, `load_boxes_anydays` |
| `Grouping` | `grouping.dfy` | Python's insertion-ordered dict and `group_by_unit_and_date` |
| `Batch` | `batch.dfy` | `process_report_batch`: date collection, date pick, diagnostics, the per-location guard, the loads and the set differences |

Pure helpers of the source are functions with lemmas. Code that builds its result in loops is
a method proved equal to a specification function; the properties are then proved about that
function. This applies to:

- the two loaders;
- the grouping;
- the exact and fuzzy unit scans;
- the date collection;
- the diagnostics;
- the per-location loop;
- the whole batch.

Where Python raises, the model returns a `Failure` instead:

- `int()` on a date that is not two integers gives a `Failure` carrying the offending date;
- a spreadsheet without the required columns gives a `Failure` carrying the message of the
  source's `ValueError`.

The first exception aborts the batch, as in the source.

Inputs the model takes as parameters:

- **Uploaded files.** `Batch.Files` maps a path to the sheet `pd.read_excel` would return, given
  as its column names and rows.
- **Similarity score.** `Units.Ratio` stands for `difflib.SequenceMatcher(...).ratio()`. The
  model follows difflib's argument order: `get_close_matches` scores `(key, word)`, and the
  token loop scores `(joined tokens, key)`.

Two points of the code's behaviour that are easy to miss:

- The error for a missing column always names both required columns
  (`Boxes.MissingColumns`), not just the missing one.
- A file whose name matches no location is grouped under `None`, and no location entry reads
  that bucket. Its date still enters the set of dates from which the two report dates are
  picked (utils.py:136-139).

## Model

| member | source | states |
|---|---|---|
| Text.Lower | utils.py:26 | `str.lower()` keeps the length and leaves no upper-case letter; a character that is not an upper-case letter is kept, and an upper-case letter becomes the letter `str.upper()` turns back into it |
| Text.TrimStart | utils.py:28 | the result is a suffix of the input and does not start with whitespace |
| Text.TrimStartDropsSpace | utils.py:28 | everything `str.lstrip()` removes before the result is whitespace |
| Text.TrimEnd | utils.py:28 | the result is a prefix of the input and does not end with whitespace |
| Text.TrimEndDropsSpace | utils.py:28 | everything `str.rstrip()` removes after the result is whitespace |
| Text.StripAccentsFolds | utils.py:22-23 | no combining mark and no precomposed accented letter survives accent stripping |
| Text.NormTextCanonical | utils.py:25-29 | the output of `_norm_text` is canonical: no upper-case or accented letter, no `_` or `-`, only single plain spaces, none at either end |
| Text.CanonicalIsFixed | utils.py:25-29 | `_norm_text` leaves a canonical text unchanged |
| Text.NormTextIdempotent | utils.py:25-29 | `_norm_text(_norm_text(s)) == _norm_text(s)` for every text |
| Text.JoinWordsOfCanonical | utils.py:45-47 | `" ".join(t.split())` gives a canonical text back unchanged |
| Order.StrLtTransitive | utils.py:172-173 | Python's string order is transitive |
| Order.StrLtTotal | utils.py:172-173 | any two different strings are ordered one way or the other |
| Order.Sort | utils.py:172-173 | sorting is a permutation of its input (same multiset), and a list without repeats comes out strictly ascending |
| Order.AscendingListUnique | utils.py:172-173 | a set has only one strictly ascending listing, so `sorted(list(s))` does not depend on set iteration order |
| Dates.Digits | utils.py:34 | `str(n)` is a non-empty run of digits |
| Dates.ParseDigits | utils.py:34 | `int(str(n)) == n` |
| Dates.ParseFormat2 | utils.py:34 | `int(f"{n:02d}") == n`, negative numbers included |
| Dates.ParseFormatDate | utils.py:31-36 | splitting a formatted date on its dot and reading both halves gives back the two numbers |
| Dates.NormalizeDateIdempotent | utils.py:31-36 | `_normalize_date` is idempotent |
| Dates.NormalizeDateChangesOnlyDates | utils.py:31-36 | input that does not split into two integers comes back unchanged; input that does stays readable, with the same two numbers |
| Dates.NormalizeShortDate | utils.py:31-36 | a date of 1–2 digits, a dot and 1–2 digits is zero-padded to "DD.MM" with the same day and month |
| Dates.ParseIntRejectsSeparator | utils.py:34 | `int()` skips only the whitespace it knows: a text starting with one of U+001C..U+001F, which `str.isspace()` accepts, does not read as a number |
| Dates.DateMatchAt | utils.py:16 | a match of `DATE_PATTERN` is 3 to 5 characters long and lies inside the text |
| Dates.MatchIsShortDate | utils.py:16 | a match is 1–2 digits, a dot and 1–2 digits |
| Dates.Search | utils.py:57 | `search` reports a position where the pattern matches, with that match's length |
| Dates.SearchFirst | utils.py:57 | the match `search` reports is the leftmost; when it reports none, the pattern matches nowhere |
| Dates.SubSkipsFirstMatch | utils.py:61 | `sub("", s)` keeps the text before the first match, drops the match and goes on after it; with no match the text is kept whole |
| Dates.KeepsUnmatched | utils.py:61 | `sub` keeps every stretch of text where the pattern does not match |
| Dates.SortBy | utils.py:124 | `sorted(..., key=key_fn)` is a permutation of its input, ordered by (month, day) |
| Dates.NonEmpty | utils.py:124 | `[d for d in all_dates if d]` keeps exactly the non-empty dates |
| Dates.FirstUnparsable | utils.py:121-123 | `key_fn` raises on some date exactly when not every date splits into two integers, and then names one that does not |
| Dates.PickTwoDates | utils.py:120-127 | both halves are `None` exactly when fewer than two non-empty dates are given |
| Dates.LastTwoBy | utils.py:125-127 | `(None, None)` exactly when fewer than two dates are given |
| Dates.LastTwoByLatest | utils.py:124-127 | the pair is the second-latest and the latest by (month, day) |
| Dates.PickTwoDatesFails | utils.py:120-127 | `pick_two_dates` raises exactly when a non-empty date does not split into two integers |
| Dates.PickTwoDatesLatest | utils.py:120-127 | with two or more dates the pair is the two latest of the normalised dates by (month, day) |
| Dates.PickTwoDatesParse | utils.py:120-127 | both picked dates split into two integers |
| Dates.PickTwoDatesStrict | utils.py:120-127 | when the normalised dates are distinct, the previous date is strictly earlier than the current one |
| Dates.PickTwoDatesOrderFree | utils.py:120-127 | on distinct "DD.MM" dates the pick succeeds and does not depend on the order in which the set is listed |
| Units.KeysDistinct | utils.py:7-13 | the registry keys are distinct |
| Units.DisplayNamesDistinct | utils.py:7-13 | the display names are distinct, so the report has one entry per location |
| Units.Stem | utils.py:54 | `splitext(p)[0]` is `p` itself or the prefix of `p` before a dot |
| Units.StemOfExtension | utils.py:54 | `splitext("root.ext")[0] == "root"` for a root that is not all dots and an extension without `/` or `.` |
| Units.StemWithoutDot | utils.py:54 | a name without a dot is its own stem |
| Units.FirstKey | utils.py:66-69 | the first registry key, in registry order, that satisfies the test; `None` exactly when no key does |
| Units.ExactUnit | utils.py:64-69 | the substring loop returns the display name of the first key contained in the candidate |
| Units.BestClose | utils.py:41 | `get_close_matches(n=1)` returns a key scoring at least the cutoff; it returns none exactly when every key scores below it |
| Units.BestCloseGreatest | utils.py:41 | the key it returns outranks every other qualifying key: a higher score, or on a tie the greater key |
| Units.FuzzyUnitSpec | utils.py:38-50 | `_fuzzy_unit` yields only registered display names |
| Units.FuzzyUnit | utils.py:38-50 | the method with its token loop and early return computes `FuzzyUnitSpec` |
| Units.FuzzyUnitResult | utils.py:38-50 | `_fuzzy_unit` finds nothing exactly when every key scores below the cutoff in both passes |
| Units.TokenPassRedundant | utils.py:44-49 | on a canonical candidate with a symmetric score, the token pass finds nothing the close-match pass missed |
| Units.DateOf | utils.py:57-58 | the date is absent exactly when `DATE_PATTERN` does not occur; otherwise it is the zero-padded "DD.MM" of the day digits and the month digits of the first match, reads back as those two numbers, and is fixed by `_normalize_date` |
| Dates.NormalizedMatch | utils.py:31-36 | `_normalize_date` of a `DATE_PATTERN` match is "DD.MM" of the match's day and month digits, and reads back as those two numbers |
| Units.CandidateCanonical | utils.py:61-62 | the text searched for a location is canonical |
| Units.CandidateWithoutDate | utils.py:61-62 | with no date in the name the candidate is `_norm_text` of the name |
| Units.CandidateCutsFirstDate | utils.py:61-62 | the candidate drops the first date and goes on removing dates after it |
| Units.CandidateTokensJoin | utils.py:45-47 | joining the candidate's tokens back gives the candidate |
| Units.UnitOfCandidate | utils.py:64-72 | the location found in a candidate is a registered display name |
| Units.Extract | utils.py:52-74 | the location is a registered display name and the date is a "DD.MM" date |
| Units.ExtractUnitAndDate | utils.py:52-74 | the method with its exact and fuzzy loops computes `Extract` |
| Units.ExactMatchWins | utils.py:64-69 | the first key contained in the candidate decides the location |
| Units.FuzzyOnlyWithoutKey | utils.py:71-72 | when some key is contained in the candidate, the similarity score plays no part |
| Units.FuzzyWhenNoKey | utils.py:71-72 | when no key is contained, the location is `_fuzzy_unit` of the candidate at cutoff 0.75 |
| Boxes.Pieces | utils.py:80 | `re.split` yields one more piece than there are separators, no piece holds a separator, and together they hold every other character in order |
| Boxes.UpperIdempotent | utils.py:81 | upper-casing twice is upper-casing once |
| Boxes.SplitBoxesTokens | utils.py:76-81 | every token is non-empty, trimmed, upper case and free of separators |
| Boxes.TokensCover | utils.py:81 | every piece that is not blank gives its trimmed upper-case token |
| Boxes.SplitBoxesOfJoin | utils.py:76-81 | tokens joined with any separators split back into the same tokens |
| Boxes.ReadSheet | utils.py:83-87 | the sheet fails with the missing-columns error exactly when a required column is absent; otherwise it yields its rows |
| Boxes.Overdue | utils.py:91-92 | keeps exactly the rows whose days overdue are a number of at least 5 |
| Boxes.BoxesOfMember | utils.py:93-96 | a box is collected exactly when some row's boxes cell yields it |
| Boxes.CollectBoxes | utils.py:93-96 | the two nested loops collect exactly `BoxesOf` |
| Boxes.LoadBoxesGe5 | utils.py:89-97 | the method computes `OverdueBoxes` |
| Boxes.LoadBoxesAnyDays | utils.py:99-105 | the method computes `AllBoxes` |
| Boxes.LoadersFailTogether | utils.py:83-105 | both loaders fail on the same sheets, exactly those missing a column, with the same message |
| Boxes.OverdueBoxesMember | utils.py:89-97 | a box is loaded exactly when an overdue row of the sheet lists it |
| Boxes.AllBoxesMember | utils.py:99-105 | a box is loaded exactly when some row of the sheet lists it |
| Boxes.OverdueWithinAll | utils.py:89-105 | for a boxes cell that both loaders read as the same text, the overdue boxes of a sheet are among all its boxes |
| Boxes.LoadedAreTokens | utils.py:99-105 | every loaded box is a token of `split_boxes` |
| Grouping.Put | utils.py:117 | dict assignment keeps the keys distinct and in step with the entries, and updates exactly one entry |
| Grouping.GroupByUnitAndDate | utils.py:107-118 | the loop builds exactly `Group` over `extract_unit_and_date_from_name` |
| Grouping.GroupBuckets | utils.py:107-118 | each bucket holds exactly the paths of the items read as its (location, date), in input order |
| Grouping.GroupWellGrouped | utils.py:107-118 | both dict levels are well formed and no bucket is empty |
| Grouping.GroupLocations | utils.py:107-118 | the locations appear in the order each is first read |
| Grouping.GroupDates | utils.py:107-118 | the dates of a location appear in the order each is first read for it |
| Grouping.GroupTotal | utils.py:107-118 | the buckets together hold one path per item |
| Batch.GatherShape | utils.py:135-139 | the collected dates are exactly the non-empty date keys, each once |
| Batch.CollectDates | utils.py:135-139 | the nested loops collect exactly `AllDates` |
| Batch.AddDatesOf | utils.py:137-139 | the inner loop adds the truthy dates of one location not yet collected, in order |
| Batch.DateKeysMember | utils.py:136-137 | a date is visited exactly when some location's bucket has it |
| Batch.ExtractorReadsCanonicalDates | utils.py:52-74 | every date read from a name is "DD.MM" |
| Batch.GroupCanonicalDates | utils.py:107-118 | so every date key of the grouping is `None` or "DD.MM" |
| Batch.PickAnyOrder | utils.py:135-140 | however the set `all_dates` is iterated, the pick succeeds and gives the same pair |
| Batch.DiagRows | utils.py:143-145 | the diagnostic loop lists one row per (location, date) bucket, in dict order, with its file count |
| Batch.DiagCountsEveryFile | utils.py:143-145 | the diagnostic counts add up to the number of uploaded files |
| Batch.UnionOfMember | utils.py:162-164 | a box is in the previous overdue set exactly when a sheet of that date lists it |
| Batch.UnionBothMember | utils.py:166-170 | a box is in the current overdue set, or in the current full set, exactly when a sheet of that date lists it as such |
| Batch.UnionOfFails | utils.py:162-164 | the first failing sheet's error is the error of the whole loop |
| Batch.UnionBothFails | utils.py:166-170 | the first failing sheet's error is the error of the whole loop |
| Batch.CurrentOverdueWithinAll | utils.py:166-170 | `curr_ge5` is a subset of `curr_any` when each boxes cell reads as the same text in both loaders |
| Batch.LoadPrevious | utils.py:162-164 | the loop computes `UnionOf` of `load_boxes_ge5` |
| Batch.LoadCurrent | utils.py:166-170 | the loop computes both unions, loading each sheet with both loaders in turn |
| Batch.PlanInconclusive | utils.py:148-160 | a location's comparison is inconclusive exactly when it has no files for the previous date or none for the current date |
| Batch.PlanMeaning | utils.py:162-173 | block = overdue now and not overdue before; unblock = overdue before and absent now |
| Batch.PlanDisjoint | utils.py:172-173 | no box is both to be blocked and to be unblocked |
| Batch.Locations | utils.py:147 | the locations listed are exactly the registry's display names, one per registry entry, none twice |
| Batch.Plans | utils.py:147-179 | one decision per registered location |
| Batch.PlansEach | utils.py:147-179 | when the loop completes, decision i is the decision for location i |
| Batch.PlansSucceed | utils.py:147-179 | the loop completes exactly when no location's decision raises |
| Batch.BatchPlanMeaning | utils.py:147-173 | in the batch's result, each compared location blocks exactly the boxes overdue in a current sheet and in no previous one, and unblocks exactly those overdue in a previous sheet and absent from every current one |
| Batch.SortedList | utils.py:172-173 | `sorted(list(s))` is the strictly ascending listing of the set |
| Batch.UnitEntry | utils.py:148-179 | the loop body writes the location's decision as sorted lists with both dates, or the alert, or raises the loader's error |
| Batch.DecideAll | utils.py:147-179 | the loop over the registry raises exactly when some decision does; otherwise it writes each decision under its location's name |
| Batch.ProcessReportBatch | utils.py:129-182 | `process_report_batch` raises exactly when the specification does, with its error; otherwise every location's entry and `_diag` are as specified |
| Batch.NoPairNoAction | utils.py:149-160 | without a previous date every location is inconclusive and nothing is loaded |
| Batch.FewerThanTwoDates | utils.py:125-160 | with fewer than two dates both dates are `None` and every location is inconclusive |
| Batch.KnownOnlyBuckets | utils.py:107-118 | dropping the files with no location leaves every location's bucket unchanged |
| Batch.PlansReadOnlyLocations | utils.py:147-150 | the decisions depend only on the buckets of registered locations |
| Batch.UnknownFilesChangeNoPlan | utils.py:147-150 | once the two dates are picked, files whose name matches no location change no decision (their dates can still change which two dates are picked) |
| Batch.ReportShape | utils.py:129-182 | one decision per registered location, and the diagnostics count every file |

## Left out

- Reading the uploaded files (`pd.read_excel`, openpyxl) is not modelled. A sheet is given as
  its column names and rows through `Batch.Files`.
- Read errors other than a missing column (a corrupt file, an unreadable path) are not
  modelled.
- Boxes.Row: the row after `pd.to_numeric(errors='coerce')`: the days are a real number or
  `None` for NaN. The coercion of text cells into numbers is not modelled. `str()` of a
  non-text boxes cell is taken as already done: the cell is its text, or `None` where
  `pd.isna` holds. Both loaders read that one text.
- Boxes.OverdueWithinAll, Batch.CurrentOverdueWithinAll: in the source the two loaders can
  render the same numeric boxes cell differently. `iterrows` upcasts each row to one common
  dtype. After `load_boxes_ge5` coerces the days to float64, an integer boxes cell can turn
  into "101.0", while `load_boxes_anydays` keeps it as "101". The model gives each cell a single
  text, so it proves the subset only for cells both loaders read alike: text cells, or numeric
  cells whose row keeps its dtype. When the renderings differ in the source, `curr_ge5` may
  not be a subset of `curr_any`. Then `desbloquear` can name a box that is still on the
  current sheet, and `bloquear` can name one that was already overdue. `Batch.PlanDisjoint`
  does not depend on this, because it follows from the set differences alone.
- The similarity score is a parameter (`Units.Ratio`). The internals of `difflib` are not
  modelled.
- Units.FuzzyUnitSpec: requires a cutoff in [0, 1]. `get_close_matches` raises `ValueError`
  outside that range, and both uses pass 0.75 or 0.8.
- Unicode handling is limited to ASCII and Latin-1, plus the Combining Diacritical Marks
  block. This covers:
  - `unicodedata.normalize("NFD")` with the `Mn` category;
  - `str.lower`/`str.upper`;
  - regex `\w` and `\b`.
  Other scripts keep their characters unchanged.
- Dates.PickTwoDates: the `Failure` carries the date that could not be read, not the text of
  Python's `ValueError` ("invalid literal for int() …", "not enough values to unpack …"),
  which the model does not reproduce.
- Dates.ParseInt: accepts ASCII digits only. Python's `int()` also reads other Unicode decimal
  digits.
- `Stem` follows POSIX `os.path.splitext`; the Windows separator `\` is not modelled.
- No concrete file names, dates or sheets are evaluated in the model (for example
  `pick_two_dates({"07.08", "27.08", "15.01"})`). The general properties are proved instead:
  - the pick of the two latest dates;
  - the inconclusive guard;
  - the contained-key and fuzzy rules.
- Set iteration order is modelled as an ordering, not left open:
  - `all_dates` is listed in the order the grouping first shows each date.
    `Batch.PickAnyOrder` proves the order changes nothing.
  - `list(s)` before `sorted` may pick any order, and `Order.AscendingListUnique` shows the
    sorted result is the same.
- The year is not part of a date, as in the source. Dates across a year boundary are ordered
  by (month, day) only.
- `app.py` (the web layer, the upload filter and the rendering) is not part of this model.
