/** `clean_dratings`: the DRatings predictions table turned into one row
    per game with team names, spreads, win probabilities and a total. */
module DRatings {
  import opened Wrappers
  import opened Text
  import opened DRatingsPatterns

  /** A scraped cell: its text, or missing (NaN). */
  datatype Cell = Value(text: string) | Missing

  /** A scraped table: column names, a row count, and the cells column by column. */
  datatype Frame = Frame(columns: seq<string>, rowCount: nat, cells: seq<seq<Cell>>)

  predicate ValidFrame(df: Frame) {
    |df.cells| == |df.columns| && forall c :: 0 <= c < |df.cells| ==> |df.cells[c]| == df.rowCount
  }

  /** `df.empty`: no rows or no columns. */
  predicate IsEmpty(df: Frame) {
    df.rowCount == 0 || |df.columns| == 0
  }

  /** One cleaned row: exactly the seven output columns, in their order. */
  datatype GameLine = GameLine(
    awayTeam: Option<string>, homeTeam: Option<string>,
    awaySpread: Option<real>, homeSpread: Option<real>,
    awayWinProb: Option<real>, homeWinProb: Option<real>,
    projectedTotal: Option<real>)

  /** The input itself when it is empty, the cleaned rows, or the column
      whose lookup raised (`KeyError` when it is absent; a repeated name
      makes the lookup a frame, on which the next step raises too). */
  datatype Cleaned = Unchanged(frame: Frame) | Cleaned(rows: seq<GameLine>) | Raised(column: string)

  /** The columns cast to text before any extraction. */
  const STRING_COLUMNS: seq<string> := ["teams", "best_spread", "win", "total_points"]

  // ------------------------------------------------------------ columns

  /** A column name as the cleaning leaves it: no space, no capital, and
      no whitespace at either end. */
  predicate IsNormalName(n: string) {
    && (forall k :: 0 <= k < |n| ==> n[k] != ' ' && !IsUpper(n[k]))
    && (|n| > 0 ==> !IsSpace(n[0]) && !IsSpace(n[|n| - 1]))
  }

  /** A column name trimmed, with spaces turned into `_`, and lower-cased. */
  function NormaliseName(name: string): (r: string)
    ensures IsNormalName(r) && |r| <= |name|
  {
    var z := Strip(name);
    var u := ReplaceChar(z, ' ', "_");
    ReplaceCharPointwise(z, ' ', '_');
    Lower(u)
  }

  /** A name already in normal form is left as it is. */
  lemma {:induction false} NormalNameFixed(n: string)
    requires IsNormalName(n)
    ensures NormaliseName(n) == n
  {
    StripTrimmed(n);
    assert ReplaceChar(n, ' ', "_") == n;
    LowerFixed(n);
  }

  /** Normalising a normalised name changes nothing. */
  lemma {:induction false} NormaliseNameIdempotent(name: string)
    ensures NormaliseName(NormaliseName(name)) == NormaliseName(name)
  {
    NormalNameFixed(NormaliseName(name));
  }

  /** The header after `str.strip().str.replace(' ', '_').str.lower()`:
      every name is in normal form, so cleaning it again changes nothing. */
  function NormalisedColumns(columns: seq<string>): (r: seq<string>)
    ensures |r| == |columns| && forall c :: 0 <= c < |columns| ==> r[c] == NormaliseName(columns[c])
    ensures forall c :: 0 <= c < |r| ==> IsNormalName(r[c]) && NormaliseName(r[c]) == r[c]
  {
    var r := seq(|columns|, c requires 0 <= c < |columns| => NormaliseName(columns[c]));
    forall c | 0 <= c < |r| ensures NormaliseName(r[c]) == r[c] {
      NormalNameFixed(r[c]);
    }
    r
  }

  /** How many columns carry `name`. */
  function Occurrences(columns: seq<string>, name: string): nat {
    if |columns| == 0 then 0
    else Occurrences(columns[..|columns| - 1], name) + (if columns[|columns| - 1] == name then 1 else 0)
  }

  /** The position of the first `name`. */
  function IndexOf(columns: seq<string>, name: string): (i: nat)
    requires name in columns
    ensures i < |columns| && columns[i] == name
    ensures forall j :: 0 <= j < i ==> columns[j] != name
  {
    if columns[0] == name then 0 else 1 + IndexOf(columns[1..], name)
  }

  /** `df[name]` as a single column: only when exactly one column has the name. */
  function ColumnIndex(columns: seq<string>, name: string): (i: Option<nat>)
    ensures i.Some? ==> i.value < |columns| && columns[i.value] == name
  {
    if name in columns && Occurrences(columns, name) == 1 then Some(IndexOf(columns, name)) else None
  }

  /** `astype(str)`: a missing cell reads `nan`. */
  function CellText(c: Cell): string {
    if c.Missing? then "nan" else c.text
  }

  function AsText(column: seq<Cell>): (r: seq<Cell>)
    ensures |r| == |column| && forall k :: 0 <= k < |column| ==> r[k] == Value(CellText(column[k]))
  {
    seq(|column|, k requires 0 <= k < |column| => Value(CellText(column[k])))
  }

  // -------------------------------------------------------------- cells

  /** The team names of a `teams` cell, stripped; absent where the pattern
      does not match. */
  function TeamNames(cell: string): (Option<string>, Option<string>) {
    match MatchTeams(cell)
    case None => (None, None)
    case Some(m) => (Some(Strip(cell[m.awayStart..m.awayEnd])), Some(Strip(cell[m.homeStart..m.homeEnd])))
  }

  /** The two percentages of a `win` cell, as published. */
  function WinProbabilities(cell: string): (Option<real>, Option<real>) {
    match MatchWin(cell)
    case None => (None, None)
    case Some(m) => (ParseDecimal(cell[m.awayStart..m.awayEnd]), ParseDecimal(cell[m.homeStart..m.homeEnd]))
  }

  /** The two spread groups of a `best_spread` cell. */
  function SpreadTexts(cell: string): (Option<string>, Option<string>) {
    match MatchSpread(cell)
    case None => (None, None)
    case Some(m) => (Some(cell[m.awayStart..m.awayEnd]), Some(cell[m.homeStart..m.homeEnd]))
  }

  /** What `convert_spread` gives: NaN, a number, or an exception. */
  datatype Converted = Absent | Number(value: real) | Raises

  /** `x.replace('½', '.5') if '½' in x else x`. */
  function HalfToDecimal(x: string): string {
    if HALF in x then ReplaceChar(x, HALF, ".5") else x
  }

  /** `convert_spread`: a missing group is NaN; `½` is read as `.5`. */
  function ConvertSpread(x: Option<string>): Converted {
    if x.None? then Absent
    else
      match ParseDecimal(HalfToDecimal(x.value))
      case Some(v) => Number(v)
      case None => Raises
  }

  /** The sign of a captured spread, when it has one: 1 character or 0. */
  function SignWidth(x: string): nat {
    if |x| > 0 && (x[0] == '+' || x[0] == '-') then 1 else 0
  }

  /** The whole points of a captured spread. */
  function WholeDigits(x: string): (r: string)
    requires IsHalfSpread(x)
    ensures |r| > 0 && AllDigits(r)
  {
    var a := SignWidth(x);
    DigitRunSlice(x, a);
    x[a..a + DigitRun(x, a)]
  }

  /** Whether a captured spread ends in `½`. */
  predicate HasHalf(x: string)
    requires IsHalfSpread(x)
  {
    SignWidth(x) + |WholeDigits(x)| < |x|
  }

  /** The size of a captured spread: whole points and a half. */
  function SpreadMagnitude(x: string): real
    requires IsHalfSpread(x)
  {
    DigitsValue(WholeDigits(x)) as real + (if HasHalf(x) then 0.5 else 0.0)
  }

  /** The number a captured spread spells: sign, whole points, and a half. */
  function HalfSpreadValue(x: string): real
    requires IsHalfSpread(x)
  {
    if x[0] == '-' then -SpreadMagnitude(x) else SpreadMagnitude(x)
  }

  /** What follows the sign of a captured spread once `½` is spelt `.5`. */
  function SpreadBody(x: string): string
    requires IsHalfSpread(x)
  {
    WholeDigits(x) + (if HasHalf(x) then ".5" else "")
  }

  /** The text `float()` reads for a captured spread: the `½`, if any,
      spelt `.5`. */
  lemma {:induction false} HalfToDecimalOfSpread(x: string)
    requires IsHalfSpread(x)
    ensures HalfToDecimal(x) == x[..SignWidth(x)] + SpreadBody(x)
  {
    var a, digits := SignWidth(x), WholeDigits(x);
    var head := x[..a + |digits|];
    SpreadHead(x);
    if HasHalf(x) {
      assert x == head + [HALF];
      ReplaceHalfAtEnd(head);
    } else {
      assert x == head;
    }
  }

  /** Before a possible `½` a captured spread holds its sign and whole points. */
  lemma {:induction false} SpreadHead(x: string)
    requires IsHalfSpread(x)
    ensures var head := x[..SignWidth(x) + |WholeDigits(x)|];
            head == x[..SignWidth(x)] + WholeDigits(x) && HALF !in head
  {
    var a, digits := SignWidth(x), WholeDigits(x);
    var head := x[..a + |digits|];
    assert head == x[..a] + digits;
    forall k | 0 <= k < |head| ensures head[k] != HALF {
      if k >= a {
        assert head[k] == digits[k - a];
      }
    }
  }

  /** A final `½` is spelt `.5`. */
  lemma {:induction false} ReplaceHalfAtEnd(head: string)
    requires HALF !in head
    ensures HalfToDecimal(head + [HALF]) == head + ".5"
  {
    var x := head + [HALF];
    assert x[|x| - 1] == HALF;
    assert x[..|x| - 1] == head;
  }

  /** `float()` reads the body of a captured spread as its size. */
  lemma {:induction false} SpreadBodyParses(x: string)
    requires IsHalfSpread(x)
    ensures ParseUnsigned(SpreadBody(x)) == Some(SpreadMagnitude(x))
  {
    if HasHalf(x) {
      ParseUnsignedHalf(WholeDigits(x));
    } else {
      assert SpreadBody(x) == WholeDigits(x);
      ParseUnsignedDigits(WholeDigits(x));
    }
  }

  /** The text `float()` reads is the sign followed by the body. */
  lemma {:induction false} SpreadTextLayout(x: string)
    requires IsHalfSpread(x)
    ensures var t, a, body := HalfToDecimal(x), SignWidth(x), SpreadBody(x);
            && a <= 1 && |t| == a + |body| && t[a..] == body
            && (a == 1 ==> t[0] == x[0] && (t[0] == '+' || t[0] == '-'))
            && (a == 0 ==> |body| > 0 && body[0] != '+' && body[0] != '-' && x[0] != '-')
  {
    var a, body := SignWidth(x), SpreadBody(x);
    HalfToDecimalOfSpread(x);
    var t := HalfToDecimal(x);
    assert t[a..] == body;
    if a == 0 {
      assert body[0] == WholeDigits(x)[0];
    }
  }

  /** Every spread the pattern captures converts, never raising: `½`
      counts as a half, so `+3½` is 3.5, `-7½` is -7.5 and `4` is 4. */
  lemma {:induction false} ConvertHalfSpread(x: string)
    requires IsHalfSpread(x)
    ensures ConvertSpread(Some(x)) == Number(HalfSpreadValue(x))
  {
    SpreadBodyParses(x);
    SpreadTextLayout(x);
    ParseDecimalSigned(HalfToDecimal(x), SignWidth(x), SpreadBody(x), SpreadMagnitude(x));
  }

  /** A sign, whole points and an optional `½` spell a spread the
      pattern captures, and `convert_spread` reads its value: `+3½` is
      3.5, `-7½` is -7.5, and `-4` is -4. */
  lemma {:induction false} SpreadSpelling(sign: string, digits: string, half: bool)
    requires sign == "" || sign == "+" || sign == "-"
    requires |digits| > 0 && AllDigits(digits)
    ensures var x := sign + digits + (if half then [HALF] else []);
            var magnitude := DigitsValue(digits) as real + (if half then 0.5 else 0.0);
            && IsHalfSpread(x)
            && ConvertSpread(Some(x)) == Number(if sign == "-" then -magnitude else magnitude)
  {
    var x := sign + digits + (if half then [HALF] else []);
    SpellingParts(sign, digits, half, x);
    ConvertHalfSpread(x);
  }

  /** How a spelled spread splits back into its sign, digits and half. */
  lemma {:induction false} SpellingParts(sign: string, digits: string, half: bool, x: string)
    requires sign == "" || sign == "+" || sign == "-"
    requires |digits| > 0 && AllDigits(digits)
    requires x == sign + digits + (if half then [HALF] else [])
    ensures IsHalfSpread(x) && SignWidth(x) == |sign| && WholeDigits(x) == digits
    ensures (HasHalf(x) <==> half) && (x[0] == '-' <==> sign == "-")
    ensures var magnitude := DigitsValue(digits) as real + (if half then 0.5 else 0.0);
            HalfSpreadValue(x) == if sign == "-" then -magnitude else magnitude
  {
    var a := |sign|;
    assert a == SignWidth(x);
    DigitRunExact(x, a, a + |digits|) by {
      forall k | a <= k < a + |digits| ensures IsDigit(x[k]) {
        assert x[k] == digits[k - a];
      }
    }
    assert WholeDigits(x) == digits;
  }

  function AsOption(c: Converted): Option<real> {
    if c.Number? then Some(c.value) else None
  }

  /** The spreads of one `best_spread` cell, converted: absent where the
      pattern does not match. */
  function SpreadValues(cell: string): (Option<real>, Option<real>) {
    match MatchSpread(cell)
    case None => (None, None)
    case Some(m) =>
      SpreadShapeSlices(cell, m);
      (Some(HalfSpreadValue(cell[m.awayStart..m.awayEnd])), Some(HalfSpreadValue(cell[m.homeStart..m.homeEnd])))
  }

  /** The groups of one cell convert without raising, to `SpreadValues`. */
  lemma {:induction false} ConvertSpreadTexts(cell: string)
    ensures var g := SpreadTexts(cell);
            && !ConvertSpread(g.0).Raises? && !ConvertSpread(g.1).Raises?
            && (AsOption(ConvertSpread(g.0)), AsOption(ConvertSpread(g.1))) == SpreadValues(cell)
  {
    var m := MatchSpread(cell);
    if m.Some? {
      SpreadShapeSlices(cell, m.value);
      ConvertHalfSpread(cell[m.value.awayStart..m.value.awayEnd]);
      ConvertHalfSpread(cell[m.value.homeStart..m.value.homeEnd]);
    }
  }

  /** The `except` branch is taken only when there is no `best_spread`
      column: a conversion of a captured group never raises, so with the
      column present every row gets the spreads its own cell spells. */
  lemma {:induction false} SpreadColumnValues(texts: Option<seq<string>>, n: nat)
    requires texts.Some? ==> |texts.value| == n
    ensures var r := SpreadColumn(texts, n);
            forall k :: 0 <= k < n ==> r[k] == if texts.None? then (None, None) else SpreadValues(texts.value[k])
  {
    if texts.Some? {
      var g := seq(n, k requires 0 <= k < n => SpreadTexts(texts.value[k]));
      forall k | 0 <= k < n
        ensures !ConvertSpread(g[k].0).Raises? && !ConvertSpread(g[k].1).Raises?
        ensures (AsOption(ConvertSpread(g[k].0)), AsOption(ConvertSpread(g[k].1))) == SpreadValues(texts.value[k])
      {
        ConvertSpreadTexts(texts.value[k]);
      }
    }
  }

  /** The team names of a `teams` cell `Away (W-L) Home (W-L)`: each name
      before its record, stripped. */
  lemma {:induction false} TeamNamesOfCell(away: string, awayRecord: string, home: string, homeRecord: string)
    requires IsTeamsParts(away, awayRecord, home, homeRecord)
    ensures TeamNames(TeamsCell(away, awayRecord, home, homeRecord)) == (Some(Strip(away)), Some(Strip(home)))
  {
    MatchTeamsCell(away, awayRecord, home, homeRecord);
  }

  /** The win probabilities of a `win` cell `x% y%`: the first is the away
      team's and the second the home team's, both as published (no
      complement is taken). */
  lemma {:induction false} WinProbabilitiesOfCell(x: string, w: string, y: string)
    requires IsUnsignedDecimal(x) && IsUnsignedDecimal(y)
    requires forall k :: 0 <= k < |w| ==> IsSpace(w[k])
    ensures var p := WinProbabilities(x + "%" + w + y + "%");
            && p == (ParseDecimal(x), ParseDecimal(y))
            && p.0.Some? && p.0.value >= 0.0 && p.1.Some? && p.1.value >= 0.0
  {
    var s := x + "%" + w + y + "%";
    var h := |x| + 1 + |w|;
    MatchWinCell(x, w, y);
    assert s[0..|x|] == x && s[h..h + |y|] == y;
    UnsignedDecimalParses(x);
    UnsignedDecimalParses(y);
  }

  /** The spreads of a `best_spread` cell: the away spread `x` and the home
      spread `y`, converted, with the two prices discarded. */
  lemma {:induction false} SpreadValuesOfCell(x: string, w1: string, c1: char, n1: string, w2: string,
                                              y: string, w3: string, c2: char, n2: string)
    requires IsSpreadParts(x, w1, c1, n1, w2, y, w3, c2, n2)
    ensures SpreadValues(SpreadCell(x, w1, c1, n1, w2, y, w3, c2, n2)) == (Some(HalfSpreadValue(x)), Some(HalfSpreadValue(y)))
  {
    var s := SpreadCell(x, w1, c1, n1, w2, y, w3, c2, n2);
    var c := SpreadCellCut(x, w1, n1, w2, y, w3);
    MatchSpreadCell(x, w1, c1, n1, w2, y, w3, c2, n2);
    SpreadCellSlices(x, w1, c1, n1, w2, y, w3, c2, n2);
  }

  // -------------------------------------------------------------- table

  /** The texts of a column after `astype(str)`. */
  function TextsOf(column: seq<Cell>): (r: seq<string>)
    ensures |r| == |column| && forall k :: 0 <= k < |column| ==> r[k] == CellText(column[k])
  {
    seq(|column|, k requires 0 <= k < |column| => CellText(column[k]))
  }

  /** The texts of the column named `name`, when exactly one column has it. */
  function Column(df: Frame, name: string): (r: Option<seq<string>>)
    requires ValidFrame(df)
    ensures r.Some? ==> |r.value| == df.rowCount
  {
    match ColumnIndex(NormalisedColumns(df.columns), name)
    case Some(c) => Some(TextsOf(df.cells[c]))
    case None => None
  }

  /** The `try` block: both spreads of every row, converted column by
      column; absent everywhere when there is no `best_spread` column to
      read or some conversion raises. */
  function SpreadColumn(texts: Option<seq<string>>, n: nat): (r: seq<(Option<real>, Option<real>)>)
    requires texts.Some? ==> |texts.value| == n
    ensures |r| == n
  {
    if texts.None? then seq(n, _ => (None, None))
    else
      var g := seq(n, k requires 0 <= k < n => SpreadTexts(texts.value[k]));
      if exists k :: 0 <= k < n && (ConvertSpread(g[k].0).Raises? || ConvertSpread(g[k].1).Raises?)
      then seq(n, _ => (None, None))
      else seq(n, k requires 0 <= k < n => (AsOption(ConvertSpread(g[k].0)), AsOption(ConvertSpread(g[k].1))))
  }

  /** One cleaned row from its `teams`, `win` and `total_points` texts and its spreads. */
  function Line(teams: string, win: string, spreads: (Option<real>, Option<real>), total: string): GameLine {
    var names := TeamNames(teams);
    var probs := WinProbabilities(win);
    GameLine(names.0, names.1, spreads.0, spreads.1, probs.0, probs.1, ParseDecimal(total))
  }

  /** The cleaned rows, one per row of the four columns. */
  function Lines(teams: seq<string>, win: seq<string>, spreads: seq<(Option<real>, Option<real>)>, total: seq<string>): (r: seq<GameLine>)
    requires |win| == |teams| && |spreads| == |teams| && |total| == |teams|
    ensures |r| == |teams| && forall k :: 0 <= k < |teams| ==> r[k] == Line(teams[k], win[k], spreads[k], total[k])
  {
    seq(|teams|, k requires 0 <= k < |teams| => Line(teams[k], win[k], spreads[k], total[k]))
  }

  /** The `astype(str)` step: every column named in `STRING_COLUMNS` is cast. */
  method CastStringColumns(columns: seq<string>, cells: seq<seq<Cell>>) returns (cast: seq<seq<Cell>>)
    requires |cells| == |columns|
    ensures |cast| == |columns|
    ensures forall c :: 0 <= c < |columns| ==>
              cast[c] == if columns[c] in STRING_COLUMNS then AsText(cells[c]) else cells[c]
  {
    cast := cells;
    for i := 0 to |STRING_COLUMNS|
      invariant |cast| == |columns|
      invariant forall c :: 0 <= c < |columns| ==>
                  cast[c] == if columns[c] in STRING_COLUMNS[..i] then AsText(cells[c]) else cells[c]
    {
      var col := STRING_COLUMNS[i];
      if col in columns {
        cast := seq(|cast|, c requires 0 <= c < |cast| => if columns[c] == col then AsText(cast[c]) else cast[c]);
      }
      assert STRING_COLUMNS[..i + 1] == STRING_COLUMNS[..i] + [col];
    }
    assert STRING_COLUMNS[..|STRING_COLUMNS|] == STRING_COLUMNS;
  }

  /** A cast column reads as the same texts. */
  lemma {:induction false} AsTextTexts(column: seq<Cell>)
    ensures TextsOf(AsText(column)) == TextsOf(column)
  {
  }

  /** `df[name]` on the renamed and cast frame: the texts of the column, or
      nothing when the name is absent or repeated. */
  method ReadColumn(df: Frame, columns: seq<string>, cast: seq<seq<Cell>>, name: string)
    returns (texts: Option<seq<string>>)
    requires ValidFrame(df) && columns == NormalisedColumns(df.columns) && |cast| == |columns|
    requires name in STRING_COLUMNS
    requires forall c :: 0 <= c < |columns| ==>
               cast[c] == if columns[c] in STRING_COLUMNS then AsText(df.cells[c]) else df.cells[c]
    ensures texts == Column(df, name)
  {
    var c := ColumnIndex(columns, name);
    if c.None? {
      return None;
    }
    AsTextTexts(df.cells[c.value]);
    texts := Some(TextsOf(cast[c.value]));
  }

  /** `clean_dratings`. */
  method CleanDratings(df: Frame) returns (out: Cleaned)
    requires ValidFrame(df)
    ensures IsEmpty(df) ==> out == Unchanged(df)
    ensures !IsEmpty(df) ==>
              if Column(df, "teams").None? then out == Raised("teams")
              else if Column(df, "win").None? then out == Raised("win")
              else if Column(df, "total_points").None? then out == Raised("total_points")
              else out.Cleaned? && |out.rows| == df.rowCount
                   && forall r :: 0 <= r < df.rowCount ==>
                        out.rows[r] == Line(Column(df, "teams").value[r], Column(df, "win").value[r],
                                            SpreadColumn(Column(df, "best_spread"), df.rowCount)[r],
                                            Column(df, "total_points").value[r])
  {
    if df.rowCount == 0 || |df.columns| == 0 {
      return Unchanged(df);
    }
    var n := df.rowCount;
    var columns := NormalisedColumns(df.columns);
    var cast := CastStringColumns(columns, df.cells);
    assert STRING_COLUMNS[0] == "teams" && STRING_COLUMNS[1] == "best_spread";
    assert STRING_COLUMNS[2] == "win" && STRING_COLUMNS[3] == "total_points";

    var teams := ReadColumn(df, columns, cast, "teams");
    if teams.None? {
      return Raised("teams");
    }
    var win := ReadColumn(df, columns, cast, "win");
    if win.None? {
      return Raised("win");
    }
    var spreadTexts := ReadColumn(df, columns, cast, "best_spread");
    var spreads := SpreadColumn(spreadTexts, n);
    var total := ReadColumn(df, columns, cast, "total_points");
    if total.None? {
      return Raised("total_points");
    }
    out := Cleaned(Lines(teams.value, win.value, spreads, total.value));
  }
}
