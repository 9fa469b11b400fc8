/** A recogniser for the T-Rank line pattern of the Barttorvik schedule,
   `^\s*(?P<TeamName>.+?)(?:\s+(?P<Spread>-\d+\.?\d*))?(?:,\s*(?P<ProjectedScore>\d+-\d+))?\s*\((?P<WinProb>\d+)%\)\s*$`,
    returning the groups of the match Python's `re` finds first.

    How the backtracking order is reproduced: the leading `\s*` is tried
    longest first and the lazy team name shortest first; after the name the
    optional groups are each tried present first. Every other quantifier in
    the pattern is followed by a character it cannot match, so only its
    longest run can lead to a match and the recogniser takes that run. */
module TRankLine {
  import opened Wrappers
  import opened Text

  datatype Groups = Groups(teamName: string, spread: Option<string>,
                           projectedScore: Option<string>, winProb: string)

  /** What `-\d+\.?\d*` matches in full: a minus sign, digits, and an
      optional fractional part. */
  predicate IsNegDecimal(s: string) {
    |s| >= 2 && s[0] == '-' &&
    var d := DigitRun(s, 1);
    d > 0 && (1 + d == |s| || (s[1 + d] == '.' && AllDigits(s[2 + d..])))
  }

  /** `\s*\((?P<WinProb>\d+)%\)\s*$` from `q`: the win-probability digits. */
  function WinTail(line: string, q: nat): (r: Option<string>)
    requires q <= |line|
    ensures r.Some? ==> |r.value| > 0 && AllDigits(r.value)
  {
    var a := q + SpaceRun(line, q);
    if a < |line| && line[a] == '(' then
      var d := DigitRun(line, a + 1);
      var b := a + 1 + d;
      DigitRunDigits(line, a + 1);
      if d > 0 && b + 1 < |line| && line[b] == '%' && line[b + 1] == ')'
         && b + 2 + SpaceRun(line, b + 2) == |line|
      then Some(line[a + 1..b])
      else None
    else None
  }

  /** `,\s*(?P<ProjectedScore>\d+-\d+)` from `q`: the score and where it ends. */
  function ScoreAt(line: string, q: nat): (r: Option<(string, nat)>)
    requires q <= |line|
    ensures r.Some? ==> r.value.1 <= |line| && IsDigitPair(r.value.0)
  {
    if q < |line| && line[q] == ',' then
      var a := q + 1 + SpaceRun(line, q + 1);
      match DigitPairAt(line, a)
      case Some(e) => DigitPairAtSound(line, a); Some((line[a..e], e))
      case None => None
    else None
  }

  /** `\s+(?P<Spread>-\d+\.?\d*)` from `q`: the spread and where it ends. */
  function SpreadAt(line: string, q: nat): (r: Option<(string, nat)>)
    requires q <= |line|
    ensures r.Some? ==> r.value.1 <= |line| && IsNegDecimal(r.value.0)
  {
    var w := SpaceRun(line, q);
    var a := q + w;
    if w > 0 && a < |line| && line[a] == '-' then
      var d := DigitRun(line, a + 1);
      if d == 0 then None
      else
        var p := a + 1 + d;
        var e := if p < |line| && line[p] == '.' then p + 1 + DigitRun(line, p + 1) else p;
        NegDecimalSlice(line, a, p, e);
        Some((line[a..e], e))
    else None
  }

  /** The rest of the pattern after the projected-score group is settled. */
  function AfterSpread(line: string, q: nat): (r: Option<(Option<string>, string)>)
    requires q <= |line|
    ensures r.Some? ==> (r.value.0.Some? ==> IsDigitPair(r.value.0.value)) && |r.value.1| > 0 && AllDigits(r.value.1)
  {
    var withScore :=
      match ScoreAt(line, q)
      case Some((score, p)) => (if WinTail(line, p).Some? then Some((Some(score), WinTail(line, p).value)) else None)
      case None => None;
    if withScore.Some? then withScore
    else if WinTail(line, q).Some? then Some((None, WinTail(line, q).value))
    else None
  }

  /** The rest of the pattern after a team name ending at `e`. */
  function AfterName(line: string, e: nat): (r: Option<(Option<string>, Option<string>, string)>)
    requires e <= |line|
    ensures r.Some? ==> && (r.value.0.Some? ==> IsNegDecimal(r.value.0.value))
                        && (r.value.1.Some? ==> IsDigitPair(r.value.1.value))
                        && |r.value.2| > 0 && AllDigits(r.value.2)
  {
    var withSpread :=
      match SpreadAt(line, e)
      case Some((spread, p)) =>
        (match AfterSpread(line, p)
         case Some((score, win)) => Some((Some(spread), score, win))
         case None => None)
      case None => None;
    if withSpread.Some? then withSpread
    else
      match AfterSpread(line, e)
      case Some((score, win)) => Some((None, score, win))
      case None => None
  }

  /** Well-formed groups: what every match of the pattern captures. */
  predicate WellFormed(g: Groups) {
    && |g.teamName| > 0 && (forall k :: 0 <= k < |g.teamName| ==> g.teamName[k] != '\n')
    && (g.spread.Some? ==> IsNegDecimal(g.spread.value))
    && (g.projectedScore.Some? ==> IsDigitPair(g.projectedScore.value))
    && |g.winProb| > 0 && AllDigits(g.winProb)
  }

  /** The lazy `.+?` from `w`: the first end `e` (no newline crossed) after
      which the rest of the pattern matches. */
  function NameFrom(line: string, w: nat, e: nat): (r: Option<Groups>)
    requires w < e <= |line|
    requires forall k :: w <= k < e - 1 ==> line[k] != '\n'
    ensures r.Some? ==> WellFormed(r.value)
    decreases |line| - e
  {
    if line[e - 1] == '\n' then None
    else
      var tail := AfterName(line, e);
      if tail.Some? then
        var (spread, score, win) := tail.value;
        Some(Groups(line[w..e], spread, score, win))
      else if e < |line| then NameFrom(line, w, e + 1)
      else None
  }

  /** The leading `\s*`, tried with `w` characters and then fewer. */
  function StartFrom(line: string, w: nat): (r: Option<Groups>)
    requires w <= |line|
    ensures r.Some? ==> WellFormed(r.value)
    decreases w
  {
    var here := if w < |line| then NameFrom(line, w, w + 1) else None;
    if here.Some? then here
    else if w == 0 then None
    else StartFrom(line, w - 1)
  }

  /** `str.extract` of the T-Rank pattern on one line: `None` when the line
      does not match. */
  function MatchLine(line: string): (r: Option<Groups>)
    ensures r.Some? ==> WellFormed(r.value)
  {
    StartFrom(line, SpaceRun(line, 0))
  }

  lemma {:induction false} NegDecimalSlice(line: string, a: nat, p: nat, e: nat)
    requires a < p <= e <= |line| && line[a] == '-' && p == a + 1 + DigitRun(line, a + 1) && a + 1 < p
    requires e == p || (line[p] == '.' && e == p + 1 + DigitRun(line, p + 1))
    ensures IsNegDecimal(line[a..e])
  {
    var s := line[a..e];
    DigitRunSliceAt(line, a, e, 1);
    var d := DigitRun(s, 1);
    assert d == p - a - 1;
    if e != p {
      DigitRunSlice(line, p + 1);
      assert s[2 + d..] == line[p + 1..e];
      assert s[1 + d] == '.' && AllDigits(s[2 + d..]);
    } else {
      assert 1 + d == |s|;
    }
  }

  /** A captured spread is a number `float()` reads, and it is never
      positive. */
  lemma {:induction false} NegDecimalParses(s: string)
    requires IsNegDecimal(s)
    ensures ParseDecimal(s).Some? && ParseDecimal(s).value <= 0.0
  {
    var t := s[1..];
    var d := DigitRun(s, 1);
    DigitRunShift(s, 1, 0);
    assert DigitRun(t, 0) == d;
    if 1 + d < |s| {
      assert t[d] == '.';
      forall k | d + 1 <= k < |t| ensures IsDigit(t[k]) {
        assert t[k] == s[2 + d..][k - d - 1];
      }
      DigitRunToEnd(t, d + 1);
    }
  }

  // -------------------------------------------------------------------
  // The lines the pattern is written for.

  /** A team name as a T-Rank line prints it: nothing blank at either end,
      no `(`, `,` or line break, and no `-` straight after whitespace. */
  predicate IsLineName(x: string) {
    && |x| > 0 && !IsSpace(x[0]) && !IsSpace(x[|x| - 1])
    && (forall k :: 0 <= k < |x| ==> x[k] != '(' && x[k] != ',' && x[k] != '\n')
    && (forall k :: 0 < k < |x| && IsSpace(x[k - 1]) ==> x[k] != '-')
  }

  function SpreadText(spread: Option<string>): string {
    if spread.None? then "" else " " + spread.value
  }

  function ScoreText(score: Option<string>): string {
    if score.None? then "" else ", " + score.value
  }

  function WinText(winProb: string): string {
    " (" + winProb + "%)"
  }

  /** A T-Rank line: `Name -3.5, 75-70 (62%)`, the spread and the
      projected score each optional. */
  function TRankText(name: string, spread: Option<string>, score: Option<string>, winProb: string): string {
    name + (SpreadText(spread) + (ScoreText(score) + WinText(winProb)))
  }

  /** Well-formed parts of a T-Rank line. */
  predicate IsLineParts(name: string, spread: Option<string>, score: Option<string>, winProb: string) {
    && IsLineName(name)
    && (spread.Some? ==> IsNegDecimal(spread.value))
    && (score.Some? ==> IsDigitPair(score.value))
    && |winProb| > 0 && AllDigits(winProb)
  }

  /** ` (p%)` from `q` to the end of the line. */
  predicate WinLayout(line: string, q: nat, winProb: string) {
    && q + |winProb| + 4 == |line| && line[q] == ' ' && line[q + 1] == '('
    && line[q + 2..q + 2 + |winProb|] == winProb
    && line[q + 2 + |winProb|] == '%' && line[q + 3 + |winProb|] == ')'
  }

  /** `, A-B` from `p` to `q`, or nothing when there is no score. */
  predicate ScorePart(line: string, p: nat, score: Option<string>, q: nat) {
    && q == (if score.None? then p else p + 2 + |score.value|) && q <= |line|
    && (score.Some? ==> line[p] == ',' && line[p + 1] == ' ' && line[p + 2..q] == score.value)
  }

  /** ` -S` from `e` to `p`, or nothing when there is no spread. */
  predicate SpreadPart(line: string, e: nat, spread: Option<string>, p: nat) {
    && p == (if spread.None? then e else e + 1 + |spread.value|) && p <= |line|
    && (spread.Some? ==> line[e] == ' ' && line[e + 1..p] == spread.value)
  }

  lemma {:induction false} WinTextLayout(line: string, q: nat, winProb: string)
    requires q <= |line| && line[q..] == WinText(winProb)
    ensures WinLayout(line, q, winProb)
  {
    var t := line[q..];
    assert t[0] == ' ' && t[1] == '(' && t[2 + |winProb|] == '%' && t[3 + |winProb|] == ')';
    assert line[q + 2..q + 2 + |winProb|] == t[2..2 + |winProb|] == winProb;
  }

  lemma {:induction false} ScoreTextPart(line: string, p: nat, score: Option<string>, rest: string, q: nat)
    requires p <= |line| && line[p..] == ScoreText(score) + rest && q == p + |ScoreText(score)|
    ensures q <= |line| && line[q..] == rest && ScorePart(line, p, score, q)
  {
    var t := line[p..];
    if score.Some? {
      assert t[0] == ',' && t[1] == ' ';
      assert line[p + 2..q] == t[2..q - p] == score.value;
    }
    assert line[q..] == t[q - p..] == rest;
  }

  lemma {:induction false} SpreadTextPart(line: string, e: nat, spread: Option<string>, rest: string, p: nat)
    requires e <= |line| && line[e..] == SpreadText(spread) + rest && p == e + |SpreadText(spread)|
    ensures p <= |line| && line[p..] == rest && SpreadPart(line, e, spread, p)
  {
    var t := line[e..];
    if spread.Some? {
      assert t[0] == ' ';
      assert line[e + 1..p] == t[1..p - e] == spread.value;
    }
    assert line[p..] == t[p - e..] == rest;
  }

  lemma {:induction false} Concat(x: string, y: string)
    ensures |x + y| == |x| + |y| && (x + y)[..|x|] == x && (x + y)[|x|..] == y
  {
  }

  /** Where each part of a T-Rank line sits, once the team name is cut off:
      the spread runs from `|name|` to `p`, the score from `p` to `q`. */
  lemma {:induction false} TRankTextLayout(line: string, name: string, spread: Option<string>, score: Option<string>,
                                           winProb: string, p: nat, q: nat)
    requires |name| <= |line| && line[|name|..] == SpreadText(spread) + (ScoreText(score) + WinText(winProb))
    requires p == |name| + |SpreadText(spread)| && q == p + |ScoreText(score)|
    ensures SpreadPart(line, |name|, spread, p) && ScorePart(line, p, score, q) && WinLayout(line, q, winProb)
  {
    SpreadTextPart(line, |name|, spread, ScoreText(score) + WinText(winProb), p);
    ScoreWinLayout(line, p, score, winProb, q);
  }

  lemma {:induction false} ScoreWinLayout(line: string, p: nat, score: Option<string>, winProb: string, q: nat)
    requires p <= |line| && line[p..] == ScoreText(score) + WinText(winProb) && q == p + |ScoreText(score)|
    ensures ScorePart(line, p, score, q) && WinLayout(line, q, winProb)
  {
    ScoreTextPart(line, p, score, WinText(winProb), q);
    WinTextLayout(line, q, winProb);
  }

  /** The win-probability tail ` (p%)` closing the line at `q`. */
  lemma {:induction false} WinTailOf(line: string, q: nat, winProb: string)
    requires WinLayout(line, q, winProb) && |winProb| > 0 && AllDigits(winProb)
    ensures WinTail(line, q) == Some(winProb)
  {
    var b := q + 2 + |winProb|;
    SpaceRunExact(line, q, q + 1);
    DigitRunExact(line, q + 2, b) by {
      forall k | q + 2 <= k < b ensures IsDigit(line[k]) {
        assert line[k] == winProb[k - q - 2];
      }
    }
  }

  /** An optional score `, A-B` from `p` to `q`, then the win-probability tail. */
  lemma {:induction false} AfterSpreadOf(line: string, p: nat, score: Option<string>, q: nat, winProb: string)
    requires ScorePart(line, p, score, q) && WinLayout(line, q, winProb)
    requires |winProb| > 0 && AllDigits(winProb) && (score.Some? ==> IsDigitPair(score.value))
    ensures AfterSpread(line, p) == Some((score, winProb))
  {
    if score.Some? {
      var x := score.value;
      assert line[p + 2] == x[0] == x[..DigitRun(x, 0)][0];
      SpaceRunExact(line, p + 1, p + 2);
      DigitPairAtExact(line, p + 2, q);
    }
    WinTailOf(line, q, winProb);
  }

  /** A spread ` -S` at `e`, ended by a character that cannot continue it. */
  lemma {:induction false} SpreadAtOf(line: string, e: nat, x: string, p: nat)
    requires e < p < |line| && line[e] == ' ' && line[e + 1..p] == x && IsNegDecimal(x)
    requires !IsDigit(line[p]) && line[p] != '.'
    ensures SpreadAt(line, e) == Some((x, p))
  {
    assert line[e + 1] == x[0];
    SpaceRunExact(line, e, e + 1);
    SpreadEndOf(line, e + 1, x, p);
  }

  /** The capture of a spread `x` at `a` ends where `x` does. */
  lemma {:induction false} SpreadEndOf(line: string, a: nat, x: string, p: nat)
    requires a < p < |line| && line[a..p] == x && IsNegDecimal(x)
    requires !IsDigit(line[p]) && line[p] != '.'
    ensures var w := a + 1 + DigitRun(line, a + 1);
            && DigitRun(line, a + 1) > 0 && w <= |line|
            && (if w < |line| && line[w] == '.' then w + 1 + DigitRun(line, w + 1) else w) == p
  {
    WholeRunOf(line, a, x, p);
    if 1 + DigitRun(x, 1) < |x| {
      FractionRunOf(line, a, x, p);
    }
  }

  /** The whole digits of a spread `x` at `a` are read in full. */
  lemma {:induction false} WholeRunOf(line: string, a: nat, x: string, p: nat)
    requires a < p < |line| && line[a..p] == x && IsNegDecimal(x) && !IsDigit(line[p])
    ensures DigitRun(line, a + 1) == DigitRun(x, 1)
  {
    var d := DigitRun(x, 1);
    DigitRunDigits(x, 1);
    forall k | a + 1 <= k < a + 1 + d ensures IsDigit(line[k]) {
      assert line[k] == x[k - a];
    }
    if 1 + d < |x| {
      assert line[a + 1 + d] == x[1 + d];
    }
    DigitRunExact(line, a + 1, a + 1 + d);
  }

  /** The fractional digits of a spread `x` at `a` run up to `p`. */
  lemma {:induction false} FractionRunOf(line: string, a: nat, x: string, p: nat)
    requires a < p < |line| && line[a..p] == x && IsNegDecimal(x) && !IsDigit(line[p])
    requires 1 + DigitRun(x, 1) < |x|
    ensures var d := DigitRun(x, 1);
            line[a + 1 + d] == '.' && a + 2 + d + DigitRun(line, a + 2 + d) == p
  {
    var d := DigitRun(x, 1);
    assert line[a + 1 + d] == x[1 + d];
    forall k | a + 2 + d <= k < p ensures IsDigit(line[k]) {
      assert line[k] == x[k - a] == x[2 + d..][k - a - 2 - d];
    }
    DigitRunExact(line, a + 2 + d, p);
  }

  /** What follows a team name ending at `e`: its optional spread, its
      optional score and its win probability. */
  lemma {:induction false} AfterNameOf(line: string, e: nat, spread: Option<string>, p: nat,
                                       score: Option<string>, q: nat, winProb: string)
    requires SpreadPart(line, e, spread, p) && ScorePart(line, p, score, q) && WinLayout(line, q, winProb)
    requires (spread.Some? ==> IsNegDecimal(spread.value)) && (score.Some? ==> IsDigitPair(score.value))
    requires |winProb| > 0 && AllDigits(winProb)
    ensures AfterName(line, e) == Some((spread, score, winProb))
  {
    AfterSpreadOf(line, p, score, q, winProb);
    if spread.Some? {
      assert line[p] == ',' || line[p] == ' ';
      SpreadAtOf(line, e, spread.value, p);
    } else if score.None? {
      SpaceRunExact(line, e, e + 1);
    }
  }

  /** Inside a team name nothing of the rest of the pattern starts. */
  lemma {:induction false} AfterNameNone(line: string, name: string, e: nat)
    requires |name| <= |line| && line[..|name|] == name && IsLineName(name) && 0 < e < |name|
    ensures AfterName(line, e).None?
  {
    var w := SpaceRun(line, e);
    var a := e + w;
    SpaceRunSpaces(line, e);
    assert line[e] == name[e] && line[a] == name[a];
    if w > 0 {
      assert line[a - 1] == name[a - 1];
    }
  }

  /** The lazy name grows from `e` up to the end of the team name. */
  lemma {:induction false} NameFromScan(line: string, name: string, e: nat, g: Groups)
    requires |name| <= |line| && line[..|name|] == name && IsLineName(name) && 0 < e <= |name|
    requires forall k :: 0 <= k < e - 1 ==> line[k] != '\n'
    requires g.teamName == name && AfterName(line, |name|) == Some((g.spread, g.projectedScore, g.winProb))
    ensures NameFrom(line, 0, e) == Some(g)
    decreases |name| - e
  {
    assert line[e - 1] == name[e - 1];
    if e < |name| {
      AfterNameNone(line, name, e);
      NameFromScan(line, name, e + 1, g);
    } else {
      assert line[0..e] == name;
    }
  }

  /** After the team name of a T-Rank line the pattern reads back its
      spread, its score and its win probability. */
  lemma {:induction false} AfterNameOfText(name: string, spread: Option<string>, score: Option<string>, winProb: string)
    requires IsLineParts(name, spread, score, winProb)
    ensures var line := TRankText(name, spread, score, winProb);
            && |name| <= |line| && line[..|name|] == name
            && AfterName(line, |name|) == Some((spread, score, winProb))
  {
    var line := TRankText(name, spread, score, winProb);
    var p := |name| + |SpreadText(spread)|;
    var q := p + |ScoreText(score)|;
    Concat(name, SpreadText(spread) + (ScoreText(score) + WinText(winProb)));
    TRankTextLayout(line, name, spread, score, winProb, p, q);
    AfterNameOf(line, |name|, spread, p, score, q, winProb);
  }

  /** The pattern reads a T-Rank line back into the parts it was written
      from: the lazy name stops at the end of the team name, and the
      spread and the score are found exactly when present. The name is
      its own `strip()`, so it compares equal to the team it names. */
  lemma {:induction false} MatchLineOf(name: string, spread: Option<string>, score: Option<string>, winProb: string)
    requires IsLineParts(name, spread, score, winProb)
    ensures MatchLine(TRankText(name, spread, score, winProb)) == Some(Groups(name, spread, score, winProb))
    ensures Strip(name) == name
  {
    StripExact(name, 0, |name|);
    assert name[0..|name|] == name;
    var line := TRankText(name, spread, score, winProb);
    AfterNameOfText(name, spread, score, winProb);
    assert line[0] == name[0];
    SpaceRunExact(line, 0, 0);
    NameFromScan(line, name, 1, Groups(name, spread, score, winProb));
  }
}
