/** `clean_barttorvik`: attaching the numbers of each T-Rank line to the team
    it names, and the other team's mirror values. */
module Barttorvik {
  import opened Wrappers
  import opened Text
  import opened TRankLine

  /** One scraped schedule row. */
  datatype GameRow = GameRow(gameTime: Option<string>, awayTeam: string, homeTeam: string, tRankLine: string)

  /** One cleaned row: exactly the eight output columns, in their order. */
  datatype CleanRow = CleanRow(
    gameTime: Option<string>, homeTeam: string, awayTeam: string,
    homeSpread: Option<real>, awaySpread: Option<real>,
    homeWinProb: Option<real>, awayWinProb: Option<real>,
    projectedTotal: Option<int>)

  /** `float(spread)` on a captured spread. */
  function SpreadValue(spread: string): (v: real)
    requires IsNegDecimal(spread)
    ensures ParseDecimal(spread) == Some(v) && v <= 0.0
  {
    NegDecimalParses(spread);
    ParseDecimal(spread).value
  }

  /** The first and second numbers of a projected score `A-B`. */
  function ScoreLeft(score: string): (r: string)
    requires IsDigitPair(score)
    ensures 0 < |r| < |score| && AllDigits(r)
  {
    DigitRunDigits(score, 0);
    score[..DigitRun(score, 0)]
  }

  function ScoreRight(score: string): string
    requires IsDigitPair(score)
  {
    score[DigitRun(score, 0) + 1..]
  }

  /** `split('-')`, a length check, and `int(a) + int(b)`; `None` where
      Python's `ValueError` branch skips the assignment. */
  function ScoreTotal(score: string): Option<int> {
    var parts := Split(score, '-');
    if |parts| == 2 && ParseInt(parts[0]).Some? && ParseInt(parts[1]).Some?
    then Some(ParseInt(parts[0]).value + ParseInt(parts[1]).value)
    else None
  }

  /** Every captured projected score `A-B` totals `A + B`. */
  lemma {:induction false} ScoreTotalOfScore(score: string)
    requires IsDigitPair(score)
    ensures AllDigits(ScoreLeft(score)) && AllDigits(ScoreRight(score))
    ensures ScoreTotal(score) == Some(DigitsValue(ScoreLeft(score)) + DigitsValue(ScoreRight(score)))
  {
    var k := DigitRun(score, 0);
    var a, b := ScoreLeft(score), score[k + 1..];
    assert score == a + ['-'] + b;
    SplitAtSep(a, b, '-');
    SplitWithoutSep(a, '-');
    SplitWithoutSep(b, '-');
  }

  /** The derived columns of a row whose line matched with groups `g`:
      the body of the loop as a value. */
  function Attributed(row: GameRow, g: Groups): CleanRow
    requires WellFormed(g)
  {
    var name := Strip(g.teamName);
    var s := if g.spread.Some? then Some(SpreadValue(g.spread.value)) else None;
    var p := DigitsValue(g.winProb) as real;
    var total := if g.projectedScore.Some? then ScoreTotal(g.projectedScore.value) else None;
    if name == row.homeTeam then
      CleanRow(row.gameTime, row.homeTeam, row.awayTeam,
               s, if s.Some? then Some(-s.value) else None, Some(p), Some(100.0 - p), total)
    else if name == row.awayTeam then
      CleanRow(row.gameTime, row.homeTeam, row.awayTeam,
               if s.Some? then Some(-s.value) else None, s, Some(100.0 - p), Some(p), total)
    else
      CleanRow(row.gameTime, row.homeTeam, row.awayTeam, None, None, None, None, total)
  }

  /** The cleaned row given the pattern's groups for its line, if any. */
  function Cells(row: GameRow, m: Option<Groups>): CleanRow
    requires m.Some? ==> WellFormed(m.value)
  {
    if m.None? then CleanRow(row.gameTime, row.homeTeam, row.awayTeam, None, None, None, None, None)
    else Attributed(row, m.value)
  }

  /** One cleaned row; a line the pattern rejects is skipped. */
  function CleanedRow(row: GameRow): CleanRow {
    Cells(row, MatchLine(row.tRankLine))
  }

  /** The input columns are copied; a line the pattern rejects leaves all
      five derived columns absent. */
  lemma {:induction false} CleanedRowCopies(row: GameRow)
    ensures var r := CleanedRow(row);
            && r.gameTime == row.gameTime && r.homeTeam == row.homeTeam && r.awayTeam == row.awayTeam
            && (MatchLine(row.tRankLine).None? ==>
                  r.homeSpread.None? && r.awaySpread.None? && r.homeWinProb.None? && r.awayWinProb.None?
                  && r.projectedTotal.None?)
  {
  }

  /** Spreads come in opposite pairs; win probabilities in pairs summing to 100. */
  lemma {:induction false} CleanedRowPairs(row: GameRow)
    ensures var r := CleanedRow(row);
            && (r.homeSpread.Some? <==> r.awaySpread.Some?)
            && (r.homeSpread.Some? ==> r.homeSpread.value == -r.awaySpread.value)
            && (r.homeWinProb.Some? <==> r.awayWinProb.Some?)
            && (r.homeWinProb.Some? ==> r.homeWinProb.value + r.awayWinProb.value == 100.0)
  {
  }

  /** The line names the home team: its spread and probability are the
      captured ones, and the favourite's spread is never positive. */
  lemma {:induction false} CleanedRowHome(row: GameRow)
    requires MatchLine(row.tRankLine).Some?
    requires Strip(MatchLine(row.tRankLine).value.teamName) == row.homeTeam
    ensures var g, r := MatchLine(row.tRankLine).value, CleanedRow(row);
            && r.homeWinProb == Some(DigitsValue(g.winProb) as real)
            && r.awayWinProb == Some(100.0 - DigitsValue(g.winProb) as real)
            && (g.spread.Some? ==> r.homeSpread == ParseDecimal(g.spread.value)
                                   && r.homeSpread.value <= 0.0 <= r.awaySpread.value)
            && (g.spread.None? ==> r.homeSpread.None? && r.awaySpread.None?)
  {
  }

  /** The line names the away team (and not the home team): mirrored. */
  lemma {:induction false} CleanedRowAway(row: GameRow)
    requires MatchLine(row.tRankLine).Some?
    requires Strip(MatchLine(row.tRankLine).value.teamName) != row.homeTeam
    requires Strip(MatchLine(row.tRankLine).value.teamName) == row.awayTeam
    ensures var g, r := MatchLine(row.tRankLine).value, CleanedRow(row);
            && r.awayWinProb == Some(DigitsValue(g.winProb) as real)
            && r.homeWinProb == Some(100.0 - DigitsValue(g.winProb) as real)
            && (g.spread.Some? ==> r.awaySpread == ParseDecimal(g.spread.value)
                                   && r.awaySpread.value <= 0.0 <= r.homeSpread.value)
            && (g.spread.None? ==> r.homeSpread.None? && r.awaySpread.None?)
  {
  }

  /** The line names neither team: no spread and no probability. */
  lemma {:induction false} CleanedRowNeither(row: GameRow)
    requires MatchLine(row.tRankLine).Some?
    requires Strip(MatchLine(row.tRankLine).value.teamName) != row.homeTeam
    requires Strip(MatchLine(row.tRankLine).value.teamName) != row.awayTeam
    ensures var r := CleanedRow(row);
            r.homeSpread.None? && r.awaySpread.None? && r.homeWinProb.None? && r.awayWinProb.None?
  {
  }

  /** The projected total of `A-B` is `A + B`, whether or not the name matched. */
  lemma {:induction false} CleanedRowTotal(row: GameRow)
    requires MatchLine(row.tRankLine).Some?
    ensures var g, r := MatchLine(row.tRankLine).value, CleanedRow(row);
            && (g.projectedScore.Some? ==>
                  r.projectedTotal == Some(DigitsValue(ScoreLeft(g.projectedScore.value))
                                           + DigitsValue(ScoreRight(g.projectedScore.value))))
            && (g.projectedScore.None? ==> r.projectedTotal.None?)
  {
    var g := MatchLine(row.tRankLine).value;
    if g.projectedScore.Some? {
      ScoreTotalOfScore(g.projectedScore.value);
    }
  }

  /** The spread and win-probability cells of row `idx`, written in place. */
  method AssignTeamColumns(row: GameRow, g: Groups, idx: nat,
                           homeSpread: array<Option<real>>, awaySpread: array<Option<real>>,
                           homeWinProb: array<Option<real>>, awayWinProb: array<Option<real>>)
    requires WellFormed(g)
    requires idx < homeSpread.Length == awaySpread.Length == homeWinProb.Length == awayWinProb.Length
    requires homeSpread != awaySpread && homeSpread != homeWinProb && homeSpread != awayWinProb
    requires awaySpread != homeWinProb && awaySpread != awayWinProb && homeWinProb != awayWinProb
    requires homeSpread[idx].None? && awaySpread[idx].None? && homeWinProb[idx].None? && awayWinProb[idx].None?
    modifies homeSpread, awaySpread, homeWinProb, awayWinProb
    ensures var r := Attributed(row, g);
            && homeSpread[idx] == r.homeSpread && awaySpread[idx] == r.awaySpread
            && homeWinProb[idx] == r.homeWinProb && awayWinProb[idx] == r.awayWinProb
    ensures forall k :: 0 <= k < homeSpread.Length && k != idx ==>
              && homeSpread[k] == old(homeSpread[k]) && awaySpread[k] == old(awaySpread[k])
              && homeWinProb[k] == old(homeWinProb[k]) && awayWinProb[k] == old(awayWinProb[k])
  {
    var teamName := Strip(g.teamName);
    if teamName == row.homeTeam {
      if g.spread.Some? {
        var spread := SpreadValue(g.spread.value);
        homeSpread[idx] := Some(spread);
        awaySpread[idx] := Some(-spread);
      }
      var homeProb := DigitsValue(g.winProb) as real;
      homeWinProb[idx] := Some(homeProb);
      awayWinProb[idx] := Some(100.0 - homeProb);
    } else if teamName == row.awayTeam {
      if g.spread.Some? {
        var spread := SpreadValue(g.spread.value);
        awaySpread[idx] := Some(spread);
        homeSpread[idx] := Some(-spread);
      }
      var awayProb := DigitsValue(g.winProb) as real;
      awayWinProb[idx] := Some(awayProb);
      homeWinProb[idx] := Some(100.0 - awayProb);
    }
  }

  /** The projected-total cell of row `idx`, written in place. */
  method AssignProjectedTotal(row: GameRow, g: Groups, idx: nat, projectedTotal: array<Option<int>>)
    requires WellFormed(g)
    requires idx < projectedTotal.Length && projectedTotal[idx].None?
    modifies projectedTotal
    ensures projectedTotal[idx] == Attributed(row, g).projectedTotal
    ensures forall k :: 0 <= k < projectedTotal.Length && k != idx ==> projectedTotal[k] == old(projectedTotal[k])
  {
    if g.projectedScore.Some? {
      var scores := Split(g.projectedScore.value, '-');
      if |scores| == 2 {
        var a, b := ParseInt(scores[0]), ParseInt(scores[1]);
        if a.Some? && b.Some? {
          projectedTotal[idx] := Some(a.value + b.value);
        }
      }
    }
  }

  /** `str.extract`: the groups of every line, in row order. */
  method ExtractAll(rows: seq<GameRow>) returns (extracted: seq<Option<Groups>>)
    ensures |extracted| == |rows|
    ensures forall k :: 0 <= k < |rows| ==> extracted[k] == MatchLine(rows[k].tRankLine)
  {
    extracted := seq(|rows|, i requires 0 <= i < |rows| => MatchLine(rows[i].tRankLine));
  }

  /** The row loop: every derived cell of row `idx` is written from its
      groups. `expected` names the cleaned rows, so that the loop reasons
      about row `idx` alone. */
  method FillColumns(rows: seq<GameRow>, extracted: seq<Option<Groups>>, ghost expected: seq<CleanRow>,
                     homeSpread: array<Option<real>>, awaySpread: array<Option<real>>,
                     homeWinProb: array<Option<real>>, awayWinProb: array<Option<real>>,
                     projectedTotal: array<Option<int>>)
    requires |extracted| == |expected| == |rows| == homeSpread.Length == awaySpread.Length
             == homeWinProb.Length == awayWinProb.Length == projectedTotal.Length
    requires forall k :: 0 <= k < |rows| && extracted[k].Some? ==> WellFormed(extracted[k].value)
    requires forall k {:trigger Cells(rows[k], extracted[k])} :: 0 <= k < |rows| ==>
               expected[k] == Cells(rows[k], extracted[k])
    requires homeSpread != awaySpread && homeSpread != homeWinProb && homeSpread != awayWinProb
    requires awaySpread != homeWinProb && awaySpread != awayWinProb && homeWinProb != awayWinProb
    requires forall k :: 0 <= k < |rows| ==> homeSpread[k].None? && awaySpread[k].None?
    requires forall k :: 0 <= k < |rows| ==> homeWinProb[k].None? && awayWinProb[k].None?
    requires forall k :: 0 <= k < |rows| ==> projectedTotal[k].None?
    modifies homeSpread, awaySpread, homeWinProb, awayWinProb, projectedTotal
    ensures forall k :: 0 <= k < |rows| ==>
              && homeSpread[k] == expected[k].homeSpread && awaySpread[k] == expected[k].awaySpread
              && homeWinProb[k] == expected[k].homeWinProb && awayWinProb[k] == expected[k].awayWinProb
              && projectedTotal[k] == expected[k].projectedTotal
  {
    for idx := 0 to |rows|
      invariant forall k :: 0 <= k < idx ==>
                  && homeSpread[k] == expected[k].homeSpread && awaySpread[k] == expected[k].awaySpread
                  && homeWinProb[k] == expected[k].homeWinProb && awayWinProb[k] == expected[k].awayWinProb
                  && projectedTotal[k] == expected[k].projectedTotal
      invariant forall k :: idx <= k < |rows| ==>
                  && homeSpread[k].None? && awaySpread[k].None? && homeWinProb[k].None?
                  && awayWinProb[k].None? && projectedTotal[k].None?
    {
      if extracted[idx].None? {
        assert expected[idx] == Cells(rows[idx], extracted[idx]);
        continue;
      }
      var g := extracted[idx].value;
      assert expected[idx] == Cells(rows[idx], extracted[idx]) == Attributed(rows[idx], g);
      AssignTeamColumns(rows[idx], g, idx, homeSpread, awaySpread, homeWinProb, awayWinProb);
      AssignProjectedTotal(rows[idx], g, idx, projectedTotal);
    }
  }

  /** `clean_barttorvik`: five derived columns start absent and are
      overwritten row by row; rows are neither dropped nor reordered. */
  method CleanBarttorvik(rows: seq<GameRow>) returns (table: seq<CleanRow>)
    ensures |table| == |rows|
    ensures forall k :: 0 <= k < |rows| ==> table[k] == CleanedRow(rows[k])
  {
    var n := |rows|;
    var extracted := ExtractAll(rows);
    var homeSpread := new Option<real>[n](_ => None);
    var awaySpread := new Option<real>[n](_ => None);
    var homeWinProb := new Option<real>[n](_ => None);
    var awayWinProb := new Option<real>[n](_ => None);
    var projectedTotal := new Option<int>[n](_ => None);
    ghost var expected := seq(n, k requires 0 <= k < n => CleanedRow(rows[k]));
    FillColumns(rows, extracted, expected, homeSpread, awaySpread, homeWinProb, awayWinProb, projectedTotal);
    table := seq(n, k requires 0 <= k < n reads homeSpread, awaySpread, homeWinProb, awayWinProb, projectedTotal =>
                 CleanRow(rows[k].gameTime, rows[k].homeTeam, rows[k].awayTeam,
                          homeSpread[k], awaySpread[k], homeWinProb[k], awayWinProb[k], projectedTotal[k]));
  }
}
