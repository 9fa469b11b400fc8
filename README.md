# College-basketball odds: the data-transformation core

The pipeline collects pre-game betting lines for NCAA basketball from three
places and brings them into one shape — one row per game (and bookmaker) with
home and away team, spreads, win probabilities and a projected total:

- **The Odds API** (`oddsapi.py`). A JSON list of games, each with bookmakers,
  markets and outcomes. It is flattened into moneyline, spread and totals
  tables: one record per game, bookmaker and market of the wanted key.
- **Barttorvik** (`scrapers/barttorvik.py`). Schedule rows carry a "T-Rank
  line" such as `Duke -6.5, 78-71 (72%)`. A regular expression picks it apart.
  The numbers go to the team the line names, and the other team gets the
  mirror values (negated spread, `100 - p`). The local `06:00 PM` game time
  becomes a UTC timestamp.
- **DRatings** (`scrapers/dratings.py`). The predictions table's column names
  are normalised. Three regular expressions take the cells apart:
  - `teams`, as `Away (W-L) Home (W-L)`;
  - `win`, as `x% y%`;
  - `best_spread`, as spread, price, spread, price, with `½` read as `.5`.
- **The team-name crosswalk** (`manage_crosswalk.py`). It becomes a map from
  canonical name to its sorted, duplicate-free variations, and then a
  lower-cased variation → canonical lookup.

The Dafny modules follow the source:

| module | models |
|---|---|
| `Wrappers` | `Option` |
| `Text` | Python's `str.strip`, `str.lower`, `str.split`, `int()` and `float()` on the strings these files handle; ASCII digit and whitespace runs |
| `OddsApi` | `get_moneyline_odds`, `get_spread_odds`, `get_totals_odds` |
| `TRankLine` | the T-Rank regular expression, with Python `re`'s first-match semantics |
| `Barttorvik` | `clean_barttorvik` |
| `GameTime` | the 12-hour local time → UTC stamp in `fetch_barttorvik` |
| `DRatingsPatterns` | the three DRatings regular expressions, first match |
| `DRatings` | `clean_dratings` and `convert_spread` |
| `StringOrder` | Python's ordering of `str` and `sorted(set(...))` |
| `Crosswalk` | `convert_crosswalk_to_json` and `create_lookup_dict` |

**How each piece is modelled:**

- **Loops** are methods with loop invariants. The collecting loops are proved
  equal to a specification function: `Slots`, `CleanedRow`, `TeamNamesOf`, `LookupOf`.
  The lemmas about those functions state what the source promises.
- **Barttorvik columns.** The five columns that `clean_barttorvik` overwrites
  cell by cell are arrays updated in place.
- **Regular expressions** become recognisers. Each one is proved sound: what it
  returns has the shape the pattern describes. Each one is also proved complete
  on the cells the site publishes: such a cell is matched, and the groups are
  exactly the parts it was built from.

## Model

| member | source | states |
|---|---|---|
| OddsApi.GetMoneylineOdds | oddsapi.py:38-72 | one moneyline record per (valid game, bookmaker, `h2h` market), in the order of the nested loops, each built from that game's teams and the market's outcomes |
| OddsApi.GetSpreadOdds | oddsapi.py:74-112 | one spread record per (valid game, bookmaker, `spreads` market), in loop order, each built from that market's outcomes |
| OddsApi.GetTotalsOdds | oddsapi.py:114-155 | one totals record per (valid game, bookmaker, `totals` market), in loop order, with its Over/Under points, prices and projected total |
| OddsApi.ReadSpreadOutcomes | oddsapi.py:92-99 | the home spread and price are the point and price of the outcome picked for the home team, the away pair those of the outcome picked for the away team; `PickFirst` and `PickSecond` say which outcomes these are |
| OddsApi.ReadTotalsOutcomes | oddsapi.py:132-139 | the Over point and price are those of the outcome picked for `Over`, the Under pair those of the outcome picked for `Under`; `PickFirst` and `PickSecond` say which outcomes these are |
| OddsApi.ProjectedTotal | oddsapi.py:141 | a projected total exists exactly when both points are present and non-zero (Python truthiness); it is their mean, and lies between them |
| OddsApi.ProjectedTotalExample | oddsapi.py:141 | 145.5 and 144.5 give 145.0; a zero Over point gives no total |
| OddsApi.InvalidGameContributesNothing | oddsapi.py:48-49 | a game missing a commence time or a team name (absent or empty) adds no record, wherever it sits in the list |
| OddsApi.SlotsSound | oddsapi.py:43-55 | every record comes from a valid game, one of its bookmakers and one of that bookmaker's markets carrying the wanted key |
| OddsApi.SlotsComplete | oddsapi.py:43-55 | every market with the wanted key, of every bookmaker of every valid game, gives a record |
| OddsApi.SlotsCount | oddsapi.py:43-55 | the number of records is the number of markets with the wanted key in valid games |
| OddsApi.SlotsAppend | oddsapi.py:43 | the records of two lists of games are the records of the first followed by those of the second |
| OddsApi.GameOrder | oddsapi.py:43-53 | the records of game `i` sit, contiguously, after those of all earlier games and before those of all later ones |
| OddsApi.BookmakerOrder | oddsapi.py:51-53 | within a game, records follow the order of the bookmakers |
| OddsApi.MarketOrder | oddsapi.py:53-54 | within a bookmaker, records follow the order of its markets |
| OddsApi.PickFirst | oddsapi.py:57-59 | the home (or Over) outcome is absent exactly when no outcome carries that name, and otherwise is the last outcome carrying it |
| OddsApi.PickSecond | oddsapi.py:60-61 | the away (or Under) outcome carries the second name and not the first; it is absent exactly when no outcome carries the second name (names differing), and otherwise is the last outcome carrying it |
| OddsApi.PickSameNames | oddsapi.py:58-61 | when home and away team are the same name, the `elif` never fires and the away side stays empty |
| OddsApi.PickIgnoresOtherNames | oddsapi.py:57-61 | an outcome carrying neither name changes nothing |
| OddsApi.PickSecondIsAnOutcome | oddsapi.py:57-61 | what is picked is one of the market's outcomes |
| OddsApi.MoneylineFromLastMatch | oddsapi.py:56-61 | each moneyline is the price of the last outcome naming that team, or absent when none does |
| OddsApi.SpreadSidesFromOneOutcome | oddsapi.py:92-99 | each side's spread and price are the point and price of one outcome (for the home side the last one naming the home team; for the away side one naming the away team and not the home team), or are both absent; the home pair is absent when no outcome names the home team |
| OddsApi.TotalsProjection | oddsapi.py:132-141 | a totals record's projected total is the mean of its Over and Under points when both are present and non-zero, and absent otherwise |
| TRankLine.MatchLine | scrapers/barttorvik.py:59-62 | whenever the T-Rank pattern matches, the groups are well formed: a non-empty name without line breaks, a spread `-d+(.d*)?`, a score `d+-d+`, digits for the probability |
| TRankLine.MatchLineOf | scrapers/barttorvik.py:59-62 | a line written as `Name[ -S][, A-B] (P%)` is matched, and the groups are exactly those parts; the name is its own `strip()` |
| TRankLine.NegDecimalParses | scrapers/barttorvik.py:85 | every captured spread is read by `float()`, and is never positive |
| Barttorvik.CleanBarttorvik | scrapers/barttorvik.py:51-125 | one cleaned row per input row, in order; row `k` is exactly the cleaned form of input row `k` |
| Barttorvik.ExtractAll | scrapers/barttorvik.py:62 | `str.extract` gives, per row, the groups of the pattern's match or nothing |
| Barttorvik.AssignTeamColumns | scrapers/barttorvik.py:81-102 | writes the two spread and the two probability cells of one row as the attribution rules say, and no other cell |
| Barttorvik.AssignProjectedTotal | scrapers/barttorvik.py:104-112 | writes the total of one row, and no other cell |
| Barttorvik.CleanedRowCopies | scrapers/barttorvik.py:65-79 | game time and teams are copied; a line the pattern rejects leaves all five derived columns absent |
| Barttorvik.CleanedRowPairs | scrapers/barttorvik.py:84-102 | spreads are present together and opposite; probabilities are present together and sum to 100 |
| Barttorvik.CleanedRowHome | scrapers/barttorvik.py:82-91 | a line naming the home team gives home probability `p`, away `100 - p`, and home the captured spread (never positive), away its negation |
| Barttorvik.CleanedRowAway | scrapers/barttorvik.py:93-102 | a line naming only the away team: the same with the sides exchanged |
| Barttorvik.CleanedRowNeither | scrapers/barttorvik.py:81-102 | a line naming neither team sets no spread and no probability |
| Barttorvik.CleanedRowTotal | scrapers/barttorvik.py:104-112 | a projected score `A-B` gives total `A + B` whichever team is named; no score gives no total |
| Barttorvik.ScoreTotalOfScore | scrapers/barttorvik.py:106-110 | `split('-')` of a captured score gives two digit strings whose `int` values are summed |
| Barttorvik.SpreadValue | scrapers/barttorvik.py:85 | `float(spread)` of a captured spread is defined and not positive |
| GameTime.UtcGameTime | scrapers/barttorvik.py:34-39 | a game time is produced exactly when the local time parses as `%I:%M %p`; then the stamp's day, hour and minute are the local time plus five hours, from 2025-01-22 |
| GameTime.UtcFields | scrapers/barttorvik.py:37-38 | the UTC day/hour/minute are the 24-hour local time plus 300 minutes, carried into 2025-01-23 past midnight |
| GameTime.Hour24 | scrapers/barttorvik.py:37 | `%I` with `%p`: the 24-hour hour agrees with the 12-hour one modulo 12 and is 12 or more exactly for PM, so 12 AM is hour 0 and 12 PM is hour 12 |
| GameTime.StampRoundTrip | scrapers/barttorvik.py:39 | the `%Y-%m-%dT%H:%M:%SZ` stamp reads back as the day, hour and minute it was written from |
| GameTime.UtcGameTimeEvening | scrapers/barttorvik.py:34-39 | `06:00 PM` becomes `2025-01-22T23:00:00Z` |
| GameTime.UtcGameTimeRollover | scrapers/barttorvik.py:37-39 | `7:30 pm` passes midnight into `2025-01-23T00:30:00Z` |
| GameTime.UtcGameTimeMidnight | scrapers/barttorvik.py:37-39 | `12:05 AM` is hour 0 and becomes `2025-01-22T05:05:00Z` |
| GameTime.UtcGameTimeRejects | scrapers/barttorvik.py:37 | `13:00 PM` is not a `%I` hour: `strptime` raises `ValueError` |
| DRatings.CleanDratings | scrapers/dratings.py:45-117 | an empty frame is returned unchanged; a `teams`, `win` or `total_points` column that is missing (or repeated) raises, in that order; otherwise one row per input row, each built from its cells and the spread column |
| DRatings.NormalisedColumns | scrapers/dratings.py:56-57 | every cleaned column name has no space, no ASCII capital and no whitespace at either end, and cleaning it again leaves it as it is |
| DRatings.NormalNameFixed | scrapers/dratings.py:56-57 | a name with no space, no capital and no surrounding whitespace is left unchanged by the cleaning |
| DRatings.NormaliseNameIdempotent | scrapers/dratings.py:56-57 | normalising an already normalised name changes nothing |
| DRatings.CastStringColumns | scrapers/dratings.py:60-63 | exactly the columns named `teams`, `best_spread`, `win`, `total_points` are cast to text (a missing cell reads `nan`), the others are untouched |
| DRatings.ReadColumn | scrapers/dratings.py:67 | `df[name]` gives the column's texts when exactly one column has the name, otherwise nothing |
| DRatings.IndexOf | scrapers/dratings.py:67 | the position of the first column carrying the name |
| DRatings.TeamNamesOfCell | scrapers/dratings.py:66-75 | a cell `Away (W-L) Home (W-L)` gives the two team names, stripped |
| DRatings.WinProbabilitiesOfCell | scrapers/dratings.py:78-83 | a cell `x% y%` gives `to_numeric(x)` and `to_numeric(y)`, away first, both non-negative |
| DRatings.SpreadValuesOfCell | scrapers/dratings.py:86-97 | a cell `S1 ±p S2 ±p` gives the values of the two spreads, away first |
| DRatings.ConvertHalfSpread | scrapers/dratings.py:91-94 | `convert_spread` of a captured spread never raises and gives its signed value, `½` counting one half |
| DRatings.SpreadSpelling | scrapers/dratings.py:86-94 | a sign, whole points and an optional `½` spell a spread the pattern captures, and `convert_spread` returns `±(points + 0.5)` or `±points` |
| DRatings.ConvertSpreadTexts | scrapers/dratings.py:88-97 | converting the groups of any `best_spread` cell never raises |
| DRatings.SpreadColumnValues | scrapers/dratings.py:86-101 | every row's spreads are the converted groups of its cell, or absent when `best_spread` cannot be read as one column (missing, or carried by two columns) |
| DRatingsPatterns.MatchTeamsSound | scrapers/dratings.py:66-67 | every match of the teams pattern has the shape the pattern describes: names without line breaks, records `d+-d+` in parentheses |
| DRatingsPatterns.MatchTeamsCell | scrapers/dratings.py:66-67 | a cell laid out as `Away (W-L) Home (W-L)` is matched, and the two names strip to the two team names |
| DRatingsPatterns.MatchWin | scrapers/dratings.py:78-79 | every match of the win pattern is two unsigned decimals, each followed by `%`, with whitespace between |
| DRatingsPatterns.MatchWinCell | scrapers/dratings.py:78-79 | a cell `x%` whitespace `y%` is matched with `x` and `y` as its groups |
| DRatingsPatterns.WinAtComplete | scrapers/dratings.py:78 | wherever a win-shaped span starts, the pattern tried at that position finds exactly that span |
| DRatingsPatterns.MatchSpread | scrapers/dratings.py:86-88 | every match of the spread pattern captures two spans spelled `[+-]?d+½?`, the away spread before the home spread |
| DRatingsPatterns.MatchSpreadCell | scrapers/dratings.py:86-88 | a cell `S1 ±p S2 ±p` is matched with `S1` and `S2` as its groups |
| StringOrder.SortedDistinct | manage_crosswalk.py:13 | `sorted(set(xs))` is strictly increasing and holds exactly the strings of `xs` |
| StringOrder.SortedUnique | manage_crosswalk.py:13 | two strictly sorted lists holding the same strings are equal, so `sorted(set(xs))` is determined by the set |
| StringOrder.LessTotal | manage_crosswalk.py:13 | any two different strings are ordered one way or the other |
| Crosswalk.NonNull | manage_crosswalk.py:11 | the non-missing cells of a row, and only those |
| Crosswalk.Entry | manage_crosswalk.py:11-13 | the variations of a row are sorted, distinct, and exactly its non-missing cells |
| Crosswalk.ConvertCrosswalkToJson | manage_crosswalk.py:4-16 | the result is a dict whose keys are the canonical names in order of first appearance, each holding the variations of its last row |
| Crosswalk.TeamNamesKeys | manage_crosswalk.py:6-14 | the dict's keys are the distinct canonical names in order of first appearance |
| Crosswalk.TeamNamesLastRow | manage_crosswalk.py:8-14 | a later row with the same canonical name overwrites an earlier one: the entry is that of the last such row |
| Crosswalk.CreateLookupDict | manage_crosswalk.py:18-24 | the lookup is what the nested loops build, canonical names taken in insertion order |
| Crosswalk.LookupSound | manage_crosswalk.py:21-23 | every lookup key is the lower-cased form of a variation of the name it maps to, and no later canonical name has such a variation |
| Crosswalk.LookupComplete | manage_crosswalk.py:21-23 | every variation of every canonical name is a lookup key, lower-cased |
| Crosswalk.LookupLastClaim | manage_crosswalk.py:21-23 | a key shared by several canonical names maps to the last of them in insertion order |
| Crosswalk.LookupExact | manage_crosswalk.py:18-24 | when no two canonical names share a variation, each variation maps to its own canonical name |
| Crosswalk.ResolveCell | manage_crosswalk.py:4-24 | end to end: a cell of the last row of a canonical name resolves, lower-cased, to that name when no variation is shared |
| Text.Lower | manage_crosswalk.py:23 | lower-casing keeps the length, leaves no ASCII capital, keeps every other character in place, and turns each capital into the same letter in lower case |
| Text.LowerFixed | manage_crosswalk.py:23 | a string without capitals is its own lower-case form |
| Text.LowerIdempotent | manage_crosswalk.py:23 | lower-casing twice is lower-casing once |
| Text.StripExact | scrapers/barttorvik.py:82 | `strip()` of a string whose text runs from `lo` to `hi`, first and last characters not whitespace, with only whitespace outside, is exactly that slice |
| Text.StripAllSpace | scrapers/barttorvik.py:82 | `strip()` of a string that is all whitespace is empty; with `StripExact` this fixes the result on every string |
| Text.ParseIntNumeral | scrapers/barttorvik.py:109 | `int(str(n)) == n`: the value read is the number the digits spell |
| Text.SplitAtSep | scrapers/barttorvik.py:106 | `split` at a separator splits both sides independently |

## Left out

- Fetching and I/O: the HTTP calls, HTML parsing, CSV and JSON files are left out. These are `get_odds_data`, `fetch_barttorvik`, `fetch_dratings` and the module-level script in `manage_crosswalk.py` (lines 26-38, including `sort_keys`). The model starts from the values these produce: a list of games, schedule rows, a table of cells, crosswalk rows.
- `get_odds_data` returns `None` on any request error (`oddsapi.py:31-36`), and the three flatteners then raise `TypeError` at their first loop (`oddsapi.py:43`, `79`, `119`). The model's flatteners take a list of games and do not model that `None` payload.
- `etl.py` is not part of this model.
- DataFrames are modelled as sequences of records, and NaN as `None`. Floating point is modelled with exact reals.
- `float()` and `pd.to_numeric` are modelled on the decimal spellings `[+-]?(d+(.d*)?|.d+)`. Exponents, `inf`, `nan` and surrounding whitespace parse to nothing.
- `\d` and `str.isdigit` are ASCII digits. `str.lower` changes ASCII letters only.
- The JSON fields of the Odds API are typed: prices and points are numbers or absent, and names are strings or absent.
- Crosswalk: cells are strings or missing, and the `API` column is given by its position. Rows whose `API` cell is missing are excluded by a precondition, because a NaN dictionary key in Python depends on object identity.
- DRatings: a name carried by two columns makes `df[name]` a frame, and later steps raise. The model reports that as a raised lookup on that column; what the frame-valued branch would compute further is not modelled.
- `clean_barttorvik` on input without its columns raises `KeyError`. This is not modelled: the rows always carry the four columns.
- `teams_extracted.empty` at `scrapers/dratings.py:69` cannot be true for a frame with rows, because `str.extract` always returns one row per input row. That branch is therefore not modelled.
- The spreads' `except` branch (`scrapers/dratings.py:98-101`) can only be reached when `best_spread` is not one column: when it is missing, or when two columns clean to that name, so that `df_clean['best_spread']` is a frame without `.str`. Every captured spread converts without raising (`ConvertSpreadTexts`), so the model takes the branch only in those two cases.
- The date in the game-time stamp is the constant 2025-01-22 of the source. The time zone offset is the constant five hours.
- `print` calls are left out.
- Conflicting crosswalk variations raise no error: the last canonical name in insertion order silently wins (`LookupLastClaim`).
- `clean_dratings` keeps rows whose `teams` cell does not match, with absent team names; it does not drop them.
- TRankLine.MatchLineOf: completeness is proved for lines whose team name starts and ends with a non-space and has no `(`, `,` or line break, and no `-` right after a space. A name that breaks these rules can make the lazy group stop early, and what the pattern then captures is only covered by the soundness contract of `MatchLine`.
- DRatingsPatterns.MatchTeamsCell: completeness is proved for team names without `(` or line breaks, with records `d+-d+`. Other text is only covered by `MatchTeamsSound`.
- DRatings.TeamNamesOfCell: the same restriction. A name such as `Miami (FL)`, whose `(` is not followed by a record, is extracted whole by the lazy group, but the model does not prove that; for such cells only `MatchTeamsSound` applies.
- Text.ParseInt: `int()` also accepts a sign, surrounding whitespace and underscores between digits (`int(" 7")`, `int("-7")`, `int("1_0")`). These are not modelled and read as `None`; the strings the scores are cut from are plain digit runs, so the difference does not arise there.
