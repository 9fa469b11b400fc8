/** Recognisers for the three patterns the DRatings cleaning step searches
    its cells with, each returning the match Python's `re.search` finds
    first (leftmost start, then the pattern's own backtracking order).

    Teams: `(?P<AwayTeam>.+?)\s*\((?P<AwayRecord>\d+-\d+)\)\s*(?P<HomeTeam>.+?)\s*\((?P<HomeRecord>\d+-\d+)\)`.
    Both names are lazy and tried shortest first; the `\s*` before the home
    name is tried longest first and gives back one character at a time.
    Win: `(?P<AwayWinPct>\d+\.?\d*)%\s*(?P<HomeWinPct>\d+\.?\d*)%`.
    Spread: `(?P<AwaySpread>[+-]?\d+½?)\s*[-+]\d+\s*(?P<HomeSpread>[+-]?\d+½?)\s*[-+]\d+`;
    the digits of the first price give back one digit at a time to the home
    spread. Every other quantifier in the three patterns is followed by a
    character it cannot match, so only its longest run can lead to a match. */
module DRatingsPatterns {
  import opened Wrappers
  import opened Text

  /** The vulgar fraction one half, `U+00BD`. */
  const HALF: char := '\U{00BD}'

  predicate NoNewline(s: string, lo: nat, hi: nat)
    requires lo <= hi <= |s|
  {
    forall k :: lo <= k < hi ==> s[k] != '\n'
  }

  predicate AllSpace(s: string, lo: nat, hi: nat)
    requires lo <= hi <= |s|
  {
    forall k :: lo <= k < hi ==> IsSpace(s[k])
  }

  // ---------------------------------------------------------------- teams

  /** `\s*\(\d+-\d+\)` at `i`: where it ends. */
  function RecordAt(s: string, i: nat): (r: Option<nat>)
    requires i <= |s|
    ensures r.Some? ==> i < r.value <= |s|
  {
    var j := i + SpaceRun(s, i);
    if j < |s| && s[j] == '(' then
      var e := DigitPairAt(s, j + 1);
      if e.Some? && e.value < |s| && s[e.value] == ')' then Some(e.value + 1) else None
    else None
  }

  /** Where a match of the teams pattern puts its two names. */
  datatype TeamsSpan = TeamsSpan(awayStart: nat, awayEnd: nat, homeStart: nat, homeEnd: nat)

  /** What every match of the teams pattern satisfies: a name, a record,
      whitespace, a name, a record. */
  predicate TeamsShape(s: string, m: TeamsSpan) {
    && m.awayStart < m.awayEnd <= |s| && NoNewline(s, m.awayStart, m.awayEnd)
    && RecordAt(s, m.awayEnd).Some?
    && RecordAt(s, m.awayEnd).value <= m.homeStart < m.homeEnd <= |s|
    && AllSpace(s, RecordAt(s, m.awayEnd).value, m.homeStart)
    && NoNewline(s, m.homeStart, m.homeEnd)
    && RecordAt(s, m.homeEnd).Some?
  }

  /** The lazy home name, tried with end `e` and then longer: the first end
      followed by a record. `.` stops at a line break. */
  function HomeFrom(s: string, e: nat): (r: Option<nat>)
    requires 0 < e <= |s|
    ensures r.Some? ==> e <= r.value <= |s|
    decreases |s| - e
  {
    if s[e - 1] == '\n' then None
    else if RecordAt(s, e).Some? then Some(e)
    else if e < |s| then HomeFrom(s, e + 1)
    else None
  }

  /** The home name starting at `p`, for `p` from the end of the whitespace
      after the away record back down to `r`. */
  function HomeStarts(s: string, r: nat, p: nat): (h: Option<(nat, nat)>)
    requires r <= p <= |s|
    ensures h.Some? ==> r <= h.value.0 < h.value.1 <= |s|
    decreases p
  {
    var e := if p < |s| then HomeFrom(s, p + 1) else None;
    if e.Some? then Some((p, e.value))
    else if p > r then HomeStarts(s, r, p - 1)
    else None
  }

  /** The away record and the home name after an away name ending at `e`. */
  function HomeAfter(s: string, e: nat): (h: Option<(nat, nat)>)
    requires e <= |s|
    ensures h.Some? ==> e < h.value.0 < h.value.1 <= |s|
  {
    var r := RecordAt(s, e);
    if r.Some? then HomeStarts(s, r.value, r.value + SpaceRun(s, r.value)) else None
  }

  /** The lazy away name from `st`, tried with end `e` and then longer. */
  function AwayFrom(s: string, st: nat, e: nat): (m: Option<TeamsSpan>)
    requires st < e <= |s|
    ensures m.Some? ==> m.value.awayStart == st < m.value.awayEnd < m.value.homeStart < m.value.homeEnd <= |s|
    decreases |s| - e
  {
    if s[e - 1] == '\n' then None
    else
      var home := HomeAfter(s, e);
      if home.Some? then Some(TeamsSpan(st, e, home.value.0, home.value.1))
      else if e < |s| then AwayFrom(s, st, e + 1)
      else None
  }

  /** The search for the teams pattern from `st` onwards. */
  function TeamsFrom(s: string, st: nat): (m: Option<TeamsSpan>)
    requires st <= |s|
    ensures m.Some? ==> st <= m.value.awayStart < m.value.awayEnd < m.value.homeStart < m.value.homeEnd <= |s|
    decreases |s| - st
  {
    if st == |s| then None
    else
      var m := AwayFrom(s, st, st + 1);
      if m.Some? then m else TeamsFrom(s, st + 1)
  }

  /** The first match of the teams pattern in a cell. */
  function MatchTeams(s: string): (m: Option<TeamsSpan>)
    ensures m.Some? ==> m.value.awayStart < m.value.awayEnd < m.value.homeStart < m.value.homeEnd <= |s|
  {
    TeamsFrom(s, 0)
  }

  /** A record from `e`: whitespace up to `j`, then `(`, the digit pair
      from `d`, and the `)` at `f`. */
  lemma {:induction false} RecordAtExact(s: string, e: nat, j: nat, d: nat, f: nat)
    requires e <= j && d == j + 1 && d <= f < |s| && AllSpace(s, e, j) && s[j] == '('
    requires IsDigitPair(s[d..f]) && s[f] == ')'
    ensures RecordAt(s, e) == Some(f + 1)
  {
    SpaceRunExact(s, e, j);
    DigitPairAtExact(s, d, f);
  }

  /** No record starts at `e` when a character other than whitespace and
      `(` comes at `q` before any `(`. */
  lemma {:induction false} RecordAtNone(s: string, e: nat, q: nat)
    requires e <= q < |s| && !IsSpace(s[q]) && forall k :: e <= k <= q ==> s[k] != '('
    ensures RecordAt(s, e).None?
  {
    SpaceRunSpaces(s, e);
  }

  /** The lazy home name grows from `e` to the first end `f` that a record follows. */
  lemma {:induction false} HomeFromScan(s: string, p: nat, e: nat, f: nat)
    requires p < e <= f <= |s| && NoNewline(s, p, f) && RecordAt(s, f).Some?
    requires forall k :: e <= k < f ==> RecordAt(s, k).None?
    ensures HomeFrom(s, e) == Some(f)
    decreases f - e
  {
    if e < f {
      HomeFromScan(s, p, e + 1, f);
    }
  }

  /** The away name ending at `e`, when a record and a home name follow it. */
  lemma {:induction false} AwayFromHere(s: string, st: nat, e: nat, home: (nat, nat))
    requires st < e <= |s| && NoNewline(s, st, e) && HomeAfter(s, e) == Some(home)
    ensures AwayFrom(s, st, e) == Some(TeamsSpan(st, e, home.0, home.1))
  {
  }

  /** The away name grows past `e` when no record follows it there. */
  lemma {:induction false} AwayFromStep(s: string, st: nat, e: nat)
    requires st < e < |s| && NoNewline(s, st, e) && HomeAfter(s, e).None?
    ensures AwayFrom(s, st, e) == AwayFrom(s, st, e + 1)
  {
  }

  /** The lazy away name grows from `e` to the first end `f` that a record
      and a home name follow. */
  lemma {:induction false} AwayFromScan(s: string, st: nat, e: nat, f: nat, home: (nat, nat))
    requires st < e <= f <= |s| && NoNewline(s, st, f) && HomeAfter(s, f) == Some(home)
    requires forall k :: e <= k < f ==> HomeAfter(s, k).None?
    ensures AwayFrom(s, st, e) == Some(TeamsSpan(st, f, home.0, home.1))
    decreases f - e
  {
    if e < f {
      AwayFromStep(s, st, e);
      AwayFromScan(s, st, e + 1, f, home);
    } else {
      AwayFromHere(s, st, e, home);
    }
  }

  /** A name from `lo` to `hi` (no `(` and no line break in it, its last
      character not whitespace), whitespace up to `j`, and a record: `(` at
      `j`, the digit pair from `d`, `)` at `f`. */
  predicate NameRecord(s: string, lo: nat, hi: nat, j: nat, d: nat, f: nat) {
    && lo < hi <= j && d == j + 1 && d <= f < |s| && !IsSpace(s[hi - 1])
    && (forall k :: lo <= k < hi ==> s[k] != '(' && s[k] != '\n')
    && AllSpace(s, hi, j) && s[j] == '(' && IsDigitPair(s[d..f]) && s[f] == ')'
  }

  /** After such a name the record, ending at `f + 1`, is found at `hi`
      and at no earlier end. */
  lemma {:induction false} NameThenRecord(s: string, lo: nat, hi: nat, j: nat, d: nat, f: nat)
    requires NameRecord(s, lo, hi, j, d, f)
    ensures RecordAt(s, hi) == Some(f + 1)
    ensures forall k :: lo <= k < hi ==> RecordAt(s, k).None?
  {
    RecordAtExact(s, hi, j, d, f);
    forall k | lo <= k < hi ensures RecordAt(s, k).None? {
      RecordAtNone(s, k, hi - 1);
    }
  }

  /** The home name tried first: from the end of the whitespace. */
  lemma {:induction false} HomeStartsHere(s: string, r: nat, p: nat, f: nat)
    requires r <= p < |s| && HomeFrom(s, p + 1) == Some(f)
    ensures HomeStarts(s, r, p) == Some((p, f))
  {
  }

  /** The home name after the away record ending at `r`. */
  lemma {:induction false} HomeAfterHere(s: string, e: nat, r: nat, p: nat, f: nat)
    requires e <= |s| && RecordAt(s, e) == Some(r) && r <= p <= |s| && r + SpaceRun(s, r) == p
    requires HomeStarts(s, r, p) == Some((p, f))
    ensures HomeAfter(s, e) == Some((p, f))
  {
  }

  /** No home name where no record follows. */
  lemma {:induction false} HomeAfterNone(s: string, lo: nat, hi: nat)
    requires lo <= hi <= |s| && forall k :: lo <= k < hi ==> RecordAt(s, k).None?
    ensures forall k :: lo <= k < hi ==> HomeAfter(s, k).None?
  {
  }

  /** The home name from `p` to `f` after the away record ending at `r`. */
  lemma {:induction false} HomeFound(s: string, e: nat, r: nat, p: nat, f: nat)
    requires e <= |s| && RecordAt(s, e) == Some(r)
    requires r < p < f < |s| && AllSpace(s, r, p) && r + SpaceRun(s, r) == p
    requires NoNewline(s, p, f) && RecordAt(s, f).Some?
    requires forall k :: p + 1 <= k < f ==> RecordAt(s, k).None?
    ensures HomeAfter(s, e) == Some((p, f))
  {
    HomeFromScan(s, p, p + 1, f);
    HomeStartsHere(s, r, p, f);
    HomeAfterHere(s, e, r, p, f);
  }

  /** The first match ends its away name at `e`, the first end a record and
      a home name follow. */
  lemma {:induction false} AwayFound(s: string, e: nat, p: nat, f: nat)
    requires 0 < e <= |s| && NoNewline(s, 0, e) && HomeAfter(s, e) == Some((p, f))
    requires forall k :: 1 <= k < e ==> RecordAt(s, k).None?
    ensures MatchTeams(s) == Some(TeamsSpan(0, e, p, f))
  {
    HomeAfterNone(s, 1, e);
    AwayFromScan(s, 0, 1, e, (p, f));
  }

  /** A home name `HomeFrom` grows from `e` crosses no line break from
      `e - 1` on and ends where a record starts. */
  lemma {:induction false} HomeFromSound(s: string, e: nat)
    requires 0 < e <= |s| && HomeFrom(s, e).Some?
    ensures NoNewline(s, e - 1, HomeFrom(s, e).value) && RecordAt(s, HomeFrom(s, e).value).Some?
    decreases |s| - e
  {
    if RecordAt(s, e).None? {
      HomeFromSound(s, e + 1);
    }
  }

  /** The home name `HomeStarts` settles on starts between `r` and `p`. */
  lemma {:induction false} HomeStartsSound(s: string, r: nat, p: nat)
    requires r <= p <= |s| && HomeStarts(s, r, p).Some?
    ensures var h := HomeStarts(s, r, p).value;
            r <= h.0 <= p && h.0 < |s| && HomeFrom(s, h.0 + 1) == Some(h.1)
    decreases p
  {
    if !(p < |s| && HomeFrom(s, p + 1).Some?) {
      HomeStartsSound(s, r, p - 1);
    }
  }

  /** After the away name: a record, whitespace, and a home name that
      crosses no line break and is followed by a record. */
  lemma {:induction false} HomeAfterSound(s: string, e: nat)
    requires e <= |s| && HomeAfter(s, e).Some?
    ensures RecordAt(s, e).Some?
    ensures var r, h := RecordAt(s, e).value, HomeAfter(s, e).value;
            r <= h.0 < h.1 <= |s| && AllSpace(s, r, h.0) && NoNewline(s, h.0, h.1) && RecordAt(s, h.1).Some?
  {
    var r := RecordAt(s, e).value;
    var p := r + SpaceRun(s, r);
    HomeStartsNamed(s, r, p, HomeStarts(s, r, p).value);
    SpaceRunSpaces(s, r);
  }

  /** The home name `HomeStarts` settles on crosses no line break and is
      followed by a record. */
  lemma {:induction false} HomeStartsNamed(s: string, r: nat, p: nat, h: (nat, nat))
    requires r <= p <= |s| && HomeStarts(s, r, p) == Some(h)
    ensures r <= h.0 <= p && h.0 < h.1 <= |s| && NoNewline(s, h.0, h.1) && RecordAt(s, h.1).Some?
  {
    HomeStartsSound(s, r, p);
    HomeFromSound(s, h.0 + 1);
  }

  /** The away name `AwayFrom` grows crosses no line break and is followed
      by a record and a home name. */
  lemma {:induction false} AwayFromSound(s: string, st: nat, e: nat)
    requires st < e <= |s| && NoNewline(s, st, e - 1) && AwayFrom(s, st, e).Some?
    ensures var m := AwayFrom(s, st, e).value;
            NoNewline(s, st, m.awayEnd) && HomeAfter(s, m.awayEnd) == Some((m.homeStart, m.homeEnd))
    decreases |s| - e
  {
    if HomeAfter(s, e).None? {
      AwayFromSound(s, st, e + 1);
    }
  }

  lemma {:induction false} TeamsFromSound(s: string, st: nat)
    requires st <= |s| && TeamsFrom(s, st).Some?
    ensures TeamsShape(s, TeamsFrom(s, st).value)
    decreases |s| - st
  {
    if AwayFrom(s, st, st + 1).Some? {
      AwayFromSound(s, st, st + 1);
      HomeAfterSound(s, TeamsFrom(s, st).value.awayEnd);
    } else {
      TeamsFromSound(s, st + 1);
    }
  }

  /** Every match of the teams pattern has the pattern's shape: a name,
      a record, whitespace, a name, a record. */
  lemma {:induction false} MatchTeamsSound(s: string)
    requires MatchTeams(s).Some?
    ensures TeamsShape(s, MatchTeams(s).value)
  {
    TeamsFromSound(s, 0);
  }

  /** Where a `teams` cell is cut: the away name up to `hi`, its record
      from `j` to `f`, the home name from `p` to `q`, its record from `j2`. */
  datatype Cut = Cut(hi: nat, j: nat, d: nat, f: nat, r: nat, p: nat, q: nat, j2: nat, d2: nat)

  /** A name with its record from the start, whitespace from `r` to `p`,
      and a name with its record closing the string. */
  predicate TeamsPieces(s: string, c: Cut) {
    && NameRecord(s, 0, c.hi, c.j, c.d, c.f) && c.r == c.f + 1 && c.r < c.p < |s|
    && AllSpace(s, c.r, c.p) && !IsSpace(s[c.p])
    && |s| > 0 && NameRecord(s, c.p, c.q, c.j2, c.d2, |s| - 1)
  }

  /** On such a string the first match takes the two names as they stand. */
  lemma {:induction false} TeamsMatch(s: string, c: Cut)
    requires TeamsPieces(s, c)
    ensures MatchTeams(s) == Some(TeamsSpan(0, c.hi, c.p, c.q))
  {
    TeamsHome(s, c);
    NameThenRecord(s, 0, c.hi, c.j, c.d, c.f);
    AwayFound(s, c.hi, c.p, c.q);
  }

  /** On such a string the away record and the home name follow the away name. */
  lemma {:induction false} TeamsHome(s: string, c: Cut)
    requires TeamsPieces(s, c)
    ensures HomeAfter(s, c.hi) == Some((c.p, c.q))
  {
    TeamsAwayRecord(s, c);
    TeamsHomeRecord(s, c);
    HomeFound(s, c.hi, c.r, c.p, c.q);
  }

  /** On such a string the away record ends at `r`, whitespace to `p` after it. */
  lemma {:induction false} TeamsAwayRecord(s: string, c: Cut)
    requires TeamsPieces(s, c)
    ensures c.hi <= |s| && RecordAt(s, c.hi) == Some(c.r)
    ensures c.r < c.p < |s| && AllSpace(s, c.r, c.p) && c.r + SpaceRun(s, c.r) == c.p
  {
    RecordAtExact(s, c.hi, c.j, c.d, c.f);
    SpaceRunExact(s, c.r, c.p);
  }

  /** On such a string the home record is found after the home name and
      at no earlier end. */
  lemma {:induction false} TeamsHomeRecord(s: string, c: Cut)
    requires TeamsPieces(s, c)
    ensures c.p < c.q < |s| && NoNewline(s, c.p, c.q) && RecordAt(s, c.q).Some?
    ensures forall k :: c.p + 1 <= k < c.q ==> RecordAt(s, k).None?
  {
    NameThenRecord(s, c.p, c.q, c.j2, c.d2, |s| - 1);
  }

  /** A team name as DRatings prints it: no `(`, no line break, and not blank. */
  predicate IsTeamName(x: string) {
    (forall k :: 0 <= k < |x| ==> x[k] != '(' && x[k] != '\n') && SpaceRun(x, 0) < |x|
  }

  /** The four parts of a `teams` cell. */
  predicate IsTeamsParts(away: string, awayRecord: string, home: string, homeRecord: string) {
    IsTeamName(away) && IsTeamName(home) && IsDigitPair(awayRecord) && IsDigitPair(homeRecord)
  }

  /** A `teams` cell laid out as `Away (W-L) Home (W-L)`. */
  function TeamsCell(away: string, awayRecord: string, home: string, homeRecord: string): (s: string)
    ensures |s| == |away| + |awayRecord| + |home| + |homeRecord| + 7
  {
    away + " (" + awayRecord + ") " + home + " (" + homeRecord + ")"
  }

  /** Where each part of a `teams` cell sits. */
  predicate TeamsLayout(s: string, away: string, awayRecord: string, home: string, homeRecord: string) {
    AwayLayout(s, away, awayRecord) && HomeLayout(s, |away| + |awayRecord| + 4, home, homeRecord)
  }

  /** The away name, then ` (`, the away record and `)`. */
  predicate AwayLayout(s: string, away: string, awayRecord: string) {
    var a, b := |away|, |awayRecord|;
    && |s| >= a + b + 4
    && (forall k :: 0 <= k < a ==> s[k] == away[k])
    && s[a] == ' ' && s[a + 1] == '(' && s[a + 2..a + 2 + b] == awayRecord && s[a + 2 + b] == ')'
  }

  /** From `h - 1`: a space, the home name, then ` (`, the home record and
      `)` to the end. */
  predicate HomeLayout(s: string, h: nat, home: string, homeRecord: string) {
    && 0 < h && |s| == h + |home| + |homeRecord| + 3 && s[h - 1] == ' '
    && (forall k :: 0 <= k < |home| ==> s[h + k] == home[k])
    && s[h + |home|] == ' ' && s[h + |home| + 1] == '('
    && s[h + |home| + 2..|s| - 1] == homeRecord && s[|s| - 1] == ')'
  }

  lemma {:induction false} TeamsCellLayout(away: string, awayRecord: string, home: string, homeRecord: string)
    ensures TeamsLayout(TeamsCell(away, awayRecord, home, homeRecord), away, awayRecord, home, homeRecord)
  {
    var s, a, b, h := TeamsCell(away, awayRecord, home, homeRecord), |away|, |awayRecord|, |away| + |awayRecord| + 4;
    var s1 := away + " (" + awayRecord + ") ";
    var s2 := s1 + home;
    assert s == s2 + " (" + homeRecord + ")";
    assert |s1| == h;
    assert forall k :: 0 <= k < a ==> s1[k] == away[k];
    assert forall k :: 0 <= k < |home| ==> s2[h + k] == home[k];
  }

  /** The cut of a `teams` cell: each name stops where its trailing
      whitespace begins, and the home name starts where its leading
      whitespace ends. */
  function CellCut(away: string, awayRecord: string, home: string): Cut {
    var a, h := |away|, |away| + |awayRecord| + 4;
    var lo := SpaceRun(home, 0);
    Cut(TrailingStart(away, SpaceRun(away, 0), a), a + 1, a + 2, a + 2 + |awayRecord|, a + 3 + |awayRecord|,
        h + lo, h + TrailingStart(home, lo, |home|), h + |home| + 1, h + |home| + 2)
  }

  /** The teams pattern finds the two names of a cell laid out as
      `Away (W-L) Home (W-L)`, up to surrounding whitespace. */
  lemma {:induction false} MatchTeamsCell(away: string, awayRecord: string, home: string, homeRecord: string)
    requires IsTeamsParts(away, awayRecord, home, homeRecord)
    ensures var s := TeamsCell(away, awayRecord, home, homeRecord);
            var m := MatchTeams(s);
            && m.Some?
            && Strip(s[m.value.awayStart..m.value.awayEnd]) == Strip(away)
            && Strip(s[m.value.homeStart..m.value.homeEnd]) == Strip(home)
  {
    TeamsCellLayout(away, awayRecord, home, homeRecord);
    MatchTeamsLaidOut(TeamsCell(away, awayRecord, home, homeRecord), away, awayRecord, home, homeRecord);
  }

  /** `MatchTeamsCell` on any string with that layout. */
  lemma {:induction false} MatchTeamsLaidOut(s: string, away: string, awayRecord: string, home: string, homeRecord: string)
    requires TeamsLayout(s, away, awayRecord, home, homeRecord) && IsTeamsParts(away, awayRecord, home, homeRecord)
    ensures var m := MatchTeams(s);
            && m.Some?
            && Strip(s[m.value.awayStart..m.value.awayEnd]) == Strip(away)
            && Strip(s[m.value.homeStart..m.value.homeEnd]) == Strip(home)
  {
    var c := CellCut(away, awayRecord, home);
    CellPieces(s, away, awayRecord, home, homeRecord);
    TeamsMatch(s, c);
    CellStripped(s, away, awayRecord, home, homeRecord);
  }

  /** A `teams` cell is cut into the pieces the first match takes. */
  lemma {:induction false} CellPieces(s: string, away: string, awayRecord: string, home: string, homeRecord: string)
    requires TeamsLayout(s, away, awayRecord, home, homeRecord) && IsTeamsParts(away, awayRecord, home, homeRecord)
    ensures TeamsPieces(s, CellCut(away, awayRecord, home))
  {
    var c := CellCut(away, awayRecord, home);
    AwayPieces(s, away, awayRecord, c);
    HomePieces(s, |away| + |awayRecord| + 4, home, homeRecord, c);
  }

  /** The away name, up to where its trailing whitespace begins, followed by
      the away record. */
  lemma {:induction false} AwayPieces(s: string, away: string, awayRecord: string, c: Cut)
    requires AwayLayout(s, away, awayRecord) && IsTeamName(away) && IsDigitPair(awayRecord)
    requires c.hi == TrailingStart(away, SpaceRun(away, 0), |away|)
    requires c.j == |away| + 1 && c.d == c.j + 1 && c.f == c.d + |awayRecord| && c.r == c.f + 1
    ensures NameRecord(s, 0, c.hi, c.j, c.d, c.f) && c.r == c.f + 1
  {
    AwayNamePiece(s, away, awayRecord, c.hi);
    AwayRecordPiece(s, away, awayRecord, c.d, c.f);
  }

  lemma {:induction false} AwayNamePiece(s: string, away: string, awayRecord: string, hi: nat)
    requires AwayLayout(s, away, awayRecord) && IsTeamName(away)
    requires hi == TrailingStart(away, SpaceRun(away, 0), |away|)
    ensures 0 < hi <= |away| && !IsSpace(s[hi - 1]) && AllSpace(s, hi, |away| + 1)
    ensures forall k :: 0 <= k < hi ==> s[k] != '(' && s[k] != '\n'
  {
    EmbeddedName(s, away, 0, SpaceRun(away, 0), hi);
    AllSpaceAppend(s, hi, |away|);
  }

  lemma {:induction false} AwayRecordPiece(s: string, away: string, awayRecord: string, d: nat, f: nat)
    requires AwayLayout(s, away, awayRecord) && IsDigitPair(awayRecord)
    requires d == |away| + 2 && f == d + |awayRecord|
    ensures f < |s| && s[d - 1] == '(' && IsDigitPair(s[d..f]) && s[f] == ')'
  {
  }

  /** The whitespace after the away record, then the home name from its
      first to its last character that is not whitespace, followed by the
      home record. */
  lemma {:induction false} HomePieces(s: string, h: nat, home: string, homeRecord: string, c: Cut)
    requires HomeLayout(s, h, home, homeRecord) && IsTeamName(home) && IsDigitPair(homeRecord)
    requires c.r + 1 == h && c.p == h + SpaceRun(home, 0) && c.q == h + TrailingStart(home, SpaceRun(home, 0), |home|)
    requires c.j2 == h + |home| + 1 && c.d2 == c.j2 + 1
    ensures c.r < c.p < |s| && AllSpace(s, c.r, c.p) && !IsSpace(s[c.p])
    ensures |s| > 0 && NameRecord(s, c.p, c.q, c.j2, c.d2, |s| - 1)
  {
    EmbeddedName(s, home, h, c.p, c.q);
    AllSpaceExtend(s, c.r, c.p);
    AllSpaceAppend(s, c.q, h + |home|);
  }

  /** A team name `x` embedded in `s` at `h`, cut where its leading
      whitespace ends (`p`) and its trailing whitespace begins (`q`). */
  lemma {:induction false} EmbeddedName(s: string, x: string, h: nat, p: nat, q: nat)
    requires h + |x| <= |s| && (forall k :: 0 <= k < |x| ==> s[h + k] == x[k]) && IsTeamName(x)
    requires p == h + SpaceRun(x, 0) && q == h + TrailingStart(x, SpaceRun(x, 0), |x|)
    ensures h <= p < q <= h + |x|
    ensures AllSpace(s, h, p) && !IsSpace(s[p]) && !IsSpace(s[q - 1]) && AllSpace(s, q, h + |x|)
    ensures forall k :: h <= k < h + |x| ==> s[k] != '(' && s[k] != '\n'
  {
    var lo := SpaceRun(x, 0);
    var hi := TrailingStart(x, lo, |x|);
    StripBounds(x);
    assert s[h + lo] == x[lo];
    assert s[h + (hi - 1)] == x[hi - 1];
    EmbeddedSpaces(s, x, h, 0, lo);
    EmbeddedSpaces(s, x, h, hi, |x|);
    forall k | h <= k < h + |x| ensures s[k] != '(' && s[k] != '\n' {
      assert s[h + (k - h)] == x[k - h];
    }
  }

  /** Whitespace of `x` is whitespace of `s` where `x` is embedded. */
  lemma {:induction false} EmbeddedSpaces(s: string, x: string, h: nat, lo: nat, hi: nat)
    requires h + |x| <= |s| && (forall k :: 0 <= k < |x| ==> s[h + k] == x[k])
    requires lo <= hi <= |x| && forall k :: lo <= k < hi ==> IsSpace(x[k])
    ensures AllSpace(s, h + lo, h + hi)
  {
    forall k | h + lo <= k < h + hi ensures IsSpace(s[k]) {
      assert s[h + (k - h)] == x[k - h];
    }
  }

  lemma {:induction false} AllSpaceExtend(s: string, r: nat, p: nat)
    requires r < p <= |s| && IsSpace(s[r]) && AllSpace(s, r + 1, p)
    ensures AllSpace(s, r, p)
  {
  }

  lemma {:induction false} AllSpaceAppend(s: string, q: nat, e: nat)
    requires q <= e < |s| && AllSpace(s, q, e) && IsSpace(s[e])
    ensures AllSpace(s, q, e + 1)
  {
  }

  /** The spans the cut gives strip to the two names stripped. */
  lemma {:induction false} CellStripped(s: string, away: string, awayRecord: string, home: string, homeRecord: string)
    requires TeamsLayout(s, away, awayRecord, home, homeRecord) && IsTeamsParts(away, awayRecord, home, homeRecord)
    ensures var c := CellCut(away, awayRecord, home);
            && c.hi <= c.p <= c.q <= |s|
            && Strip(s[0..c.hi]) == Strip(away) && Strip(s[c.p..c.q]) == Strip(home)
  {
    var c := CellCut(away, awayRecord, home);
    CellAwayStripped(s, away, awayRecord, c.hi);
    CellHomeStripped(s, |away| + |awayRecord| + 4, home, homeRecord, c.p, c.q);
  }

  lemma {:induction false} CellAwayStripped(s: string, away: string, awayRecord: string, hi: nat)
    requires AwayLayout(s, away, awayRecord) && IsTeamName(away)
    requires hi == TrailingStart(away, SpaceRun(away, 0), |away|)
    ensures hi <= |away| && Strip(s[0..hi]) == Strip(away)
  {
    StripKeeps(away);
    AwayStripped(s, away, SpaceRun(away, 0), hi);
  }

  lemma {:induction false} CellHomeStripped(s: string, h: nat, home: string, homeRecord: string, p: nat, q: nat)
    requires HomeLayout(s, h, home, homeRecord) && IsTeamName(home)
    requires p == h + SpaceRun(home, 0) && q == h + TrailingStart(home, SpaceRun(home, 0), |home|)
    ensures h <= p <= q <= |s| && Strip(s[p..q]) == Strip(home)
  {
    StripKeeps(home);
    HomeStripped(s, home, h, SpaceRun(home, 0), TrailingStart(home, SpaceRun(home, 0), |home|), p, q);
  }

  /** The away span, which stops where the name's trailing whitespace
      begins, strips to the away name stripped. */
  lemma {:induction false} AwayStripped(s: string, away: string, lo: nat, hi: nat)
    requires |away| <= |s| && forall k :: 0 <= k < |away| ==> s[k] == away[k]
    requires lo == SpaceRun(away, 0) && hi == TrailingStart(away, lo, |away|) && lo < hi
    ensures Strip(s[0..hi]) == Strip(away)
  {
    var z := s[0..hi];
    StripBounds(away);
    assert z[lo] == away[lo] && z[hi - 1] == away[hi - 1];
    forall k | 0 <= k < lo ensures IsSpace(z[k]) {
      assert z[k] == away[k];
    }
    StripExact(z, lo, hi);
    assert z[lo..hi] == away[lo..hi];
  }

  /** The home span, which runs from the first to the last character of the
      home name that is not whitespace, is the home name stripped. */
  lemma {:induction false} HomeStripped(s: string, home: string, h: nat, lo: nat, hi: nat, p: nat, f: nat)
    requires h + |home| <= |s| && forall k :: 0 <= k < |home| ==> s[h + k] == home[k]
    requires lo == SpaceRun(home, 0) && hi == TrailingStart(home, lo, |home|) && lo < hi
    requires p == h + lo && f == h + hi
    ensures Strip(s[p..f]) == Strip(home)
  {
    var z := s[p..f];
    assert z == home[lo..hi] by {
      forall k | 0 <= k < hi - lo ensures z[k] == home[lo..hi][k] {
        assert s[h + (lo + k)] == home[lo + k];
      }
    }
    StripTrimmed(z);
  }

  // ------------------------------------------------------------------ win

  /** `\d+\.?\d*%` at `i`: where the number ends, at its `%`. */
  function PercentAt(s: string, i: nat): (e: Option<nat>)
    requires i <= |s|
    ensures e.Some? ==> i < e.value < |s| && s[e.value] == '%' && IsUnsignedDecimal(s[i..e.value])
  {
    var d := DigitRun(s, i);
    if d == 0 then None
    else
      var p := i + d;
      var e := if p < |s| && s[p] == '.' then p + 1 + DigitRun(s, p + 1) else p;
      if e < |s| && s[e] == '%' then
        UnsignedDecimalSlice(s, i, p, e);
        Some(e)
      else None
  }

  /** Where a match of the win pattern puts its two percentages. */
  datatype WinSpan = WinSpan(awayStart: nat, awayEnd: nat, homeStart: nat, homeEnd: nat)

  predicate WinShape(s: string, m: WinSpan) {
    && m.awayStart < m.awayEnd < m.homeStart < m.homeEnd < |s|
    && IsUnsignedDecimal(s[m.awayStart..m.awayEnd]) && s[m.awayEnd] == '%'
    && AllSpace(s, m.awayEnd + 1, m.homeStart)
    && IsUnsignedDecimal(s[m.homeStart..m.homeEnd]) && s[m.homeEnd] == '%'
  }

  /** The win pattern at `st`: one way to match, or none. */
  function WinAt(s: string, st: nat): (m: Option<WinSpan>)
    requires st <= |s|
    ensures m.Some? ==> m.value.awayStart == st
  {
    var e := PercentAt(s, st);
    if e.None? then None
    else
      var h := e.value + 1 + SpaceRun(s, e.value + 1);
      var f := PercentAt(s, h);
      if f.None? then None else Some(WinSpan(st, e.value, h, f.value))
  }

  /** What `WinAt` finds has the win pattern's shape. */
  lemma {:induction false} WinAtShape(s: string, st: nat)
    requires st <= |s| && WinAt(s, st).Some?
    ensures WinShape(s, WinAt(s, st).value)
  {
    SpaceRunSpaces(s, PercentAt(s, st).value + 1);
  }

  function WinFrom(s: string, st: nat): (m: Option<WinSpan>)
    requires st <= |s|
    ensures m.Some? ==> WinShape(s, m.value) && st <= m.value.awayStart
    decreases |s| - st
  {
    if st == |s| then None
    else if WinAt(s, st).Some? then WinAtShape(s, st); WinAt(s, st)
    else WinFrom(s, st + 1)
  }

  /** The first match of the win pattern in a cell. */
  function MatchWin(s: string): (m: Option<WinSpan>)
    ensures m.Some? ==> WinShape(s, m.value)
  {
    WinFrom(s, 0)
  }

  /** A percentage that ends at its `%` is read in full. */
  lemma {:induction false} PercentAtExact(s: string, i: nat, e: nat)
    requires i < e < |s| && IsUnsignedDecimal(s[i..e]) && s[e] == '%'
    ensures PercentAt(s, i) == Some(e)
  {
    var x := s[i..e];
    var d := DigitRun(x, 0);
    DigitRunDigits(x, 0);
    DigitRunExact(s, i, i + d) by {
      forall k | i <= k < i + d ensures IsDigit(s[k]) {
        assert s[k] == x[k - i];
      }
      assert s[i + d] == if d == |x| then s[e] else x[d];
    }
    if d < |x| {
      DigitRunExact(s, i + d + 1, e) by {
        forall k | i + d + 1 <= k < e ensures IsDigit(s[k]) {
          assert s[k] == x[d + 1..][k - i - d - 1];
        }
      }
    }
  }

  /** The converse of `WinAt`'s contract: wherever the win pattern's
      shape starts, `WinAt` finds exactly that match. */
  lemma {:induction false} WinAtComplete(s: string, m: WinSpan)
    requires WinShape(s, m)
    ensures WinAt(s, m.awayStart) == Some(m)
  {
    PercentAtExact(s, m.awayStart, m.awayEnd);
    assert s[m.homeStart] == s[m.homeStart..m.homeEnd][0];
    SpaceRunExact(s, m.awayEnd + 1, m.homeStart);
    PercentAtExact(s, m.homeStart, m.homeEnd);
    WinAtOf(s, m.awayStart, m.awayEnd, m.homeStart, m.homeEnd);
  }

  lemma {:induction false} WinAtOf(s: string, st: nat, e: nat, h: nat, f: nat)
    requires st <= |s| && PercentAt(s, st) == Some(e)
    requires e + 1 + SpaceRun(s, e + 1) == h && PercentAt(s, h) == Some(f)
    ensures WinAt(s, st) == Some(WinSpan(st, e, h, f))
  {
  }

  /** A `win` cell `x%`, whitespace `w`, `y%`: the first match takes `x`
      and `y`, in that order. */
  lemma {:induction false} MatchWinCell(x: string, w: string, y: string)
    requires IsUnsignedDecimal(x) && IsUnsignedDecimal(y)
    requires forall k :: 0 <= k < |w| ==> IsSpace(w[k])
    ensures var s := x + "%" + w + y + "%";
            var h := |x| + 1 + |w|;
            MatchWin(s) == Some(WinSpan(0, |x|, h, h + |y|))
  {
    var s := x + "%" + w + y + "%";
    var e, h := |x|, |x| + 1 + |w|;
    var m := WinSpan(0, e, h, h + |y|);
    WinCellShape(x, w, y);
    WinAtComplete(s, m);
    MatchWinAtStart(s, m);
  }

  lemma {:induction false} WinCellShape(x: string, w: string, y: string)
    requires IsUnsignedDecimal(x) && IsUnsignedDecimal(y)
    requires forall k :: 0 <= k < |w| ==> IsSpace(w[k])
    ensures var h := |x| + 1 + |w|;
            WinShape(x + "%" + w + y + "%", WinSpan(0, |x|, h, h + |y|))
  {
    var s := x + "%" + w + y + "%";
    var e, h := |x|, |x| + 1 + |w|;
    assert s[0..e] == x && s[e] == '%';
    assert s[h..h + |y|] == y && s[h + |y|] == '%';
    forall k | e + 1 <= k < h ensures IsSpace(s[k]) {
      assert s[k] == w[k - e - 1];
    }
  }

  /** A match at the start of the cell is the first match. */
  lemma {:induction false} MatchWinAtStart(s: string, m: WinSpan)
    requires WinAt(s, 0) == Some(m)
    ensures MatchWin(s) == Some(m)
  {
  }

  // --------------------------------------------------------------- spread

  /** What `[+-]?\d+½?` matches in full. */
  predicate IsHalfSpread(x: string) {
    var a := if |x| > 0 && (x[0] == '+' || x[0] == '-') then 1 else 0;
    var d := DigitRun(x, a);
    d > 0 && (a + d == |x| || (a + d + 1 == |x| && x[a + d] == HALF))
  }

  /** `[+-]?\d+½?` at `i`: where it ends. */
  function HalfSpreadAt(s: string, i: nat): (e: Option<nat>)
    requires i <= |s|
    ensures e.Some? ==> i < e.value <= |s| && HalfSpreadSpan(s, i, e.value)
  {
    var a := if i < |s| && (s[i] == '+' || s[i] == '-') then i + 1 else i;
    var d := DigitRun(s, a);
    if d == 0 then None
    else
      var b := a + d;
      var e := if b < |s| && s[b] == HALF then b + 1 else b;
      Some(e)
  }

  /** The text of a spread span is a spread spelling. */
  lemma {:induction false} HalfSpreadSpanSlice(s: string, i: nat, e: nat)
    requires i < e <= |s| && HalfSpreadSpan(s, i, e)
    ensures IsHalfSpread(s[i..e])
  {
    var a := if i < |s| && (s[i] == '+' || s[i] == '-') then i + 1 else i;
    HalfSpreadSlice(s, i, a, e);
  }

  lemma {:induction false} HalfSpreadSlice(s: string, i: nat, a: nat, e: nat)
    requires i <= a <= |s| && (a == i || (a == i + 1 && (s[i] == '+' || s[i] == '-')))
    requires a == i + 1 || i == |s| || (s[i] != '+' && s[i] != '-')
    requires DigitRun(s, a) > 0
    requires var b := a + DigitRun(s, a); e == b || (e == b + 1 && b < |s| && s[b] == HALF)
    ensures IsHalfSpread(s[i..e])
  {
    var x := s[i..e];
    DigitRunSliceAt(s, i, e, a - i);
    assert DigitRun(x, a - i) == DigitRun(s, a);
    if a > i {
      assert x[0] == s[i];
    } else if |x| > 0 {
      assert x[0] == s[i];
    }
  }

  /** `\s*[-+]\d+` at `i`: where the digits start, and how many there are. */
  function PriceAt(s: string, i: nat): (r: Option<(nat, nat)>)
    requires i <= |s|
    ensures r.Some? ==> i < r.value.0 && 0 < r.value.1 && r.value.0 + r.value.1 <= |s|
  {
    var w := i + SpaceRun(s, i);
    if w < |s| && (s[w] == '+' || s[w] == '-') && DigitRun(s, w + 1) > 0
    then Some((w + 1, DigitRun(s, w + 1)))
    else None
  }

  /** `\s*(?P<HomeSpread>[+-]?\d+½?)\s*[-+]\d+` at `q`: the home spread's extent. */
  function HomeSpreadAt(s: string, q: nat): (h: Option<(nat, nat)>)
    requires q <= |s|
    ensures h.Some? ==> q <= h.value.0 < h.value.1 <= |s| && HalfSpreadSpan(s, h.value.0, h.value.1)
  {
    var h := q + SpaceRun(s, q);
    match HalfSpreadAt(s, h)
    case None => None
    case Some(e) => if PriceAt(s, e).Some? then Some((h, e)) else None
  }

  /** The first price keeps `k` of its digits, for `k` from all of them down to one. */
  function PriceSplit(s: string, p: nat, k: nat): (h: Option<(nat, nat)>)
    requires 0 < k && p + k <= |s|
    ensures h.Some? ==> p < h.value.0 < h.value.1 <= |s| && HalfSpreadSpan(s, h.value.0, h.value.1)
    decreases k
  {
    var h := HomeSpreadAt(s, p + k);
    if h.Some? then h
    else if k > 1 then PriceSplit(s, p, k - 1)
    else None
  }

  /** Where a match of the spread pattern puts its two spreads. */
  datatype SpreadSpan = SpreadSpan(awayStart: nat, awayEnd: nat, homeStart: nat, homeEnd: nat)

  predicate SpreadShape(s: string, m: SpreadSpan) {
    && m.awayStart < m.awayEnd < m.homeStart < m.homeEnd <= |s|
    && HalfSpreadSpan(s, m.awayStart, m.awayEnd) && HalfSpreadSpan(s, m.homeStart, m.homeEnd)
  }

  /** The two texts a spread match captures are spread spellings. */
  lemma {:induction false} SpreadShapeSlices(s: string, m: SpreadSpan)
    requires SpreadShape(s, m)
    ensures IsHalfSpread(s[m.awayStart..m.awayEnd]) && IsHalfSpread(s[m.homeStart..m.homeEnd])
  {
    HalfSpreadSpanSlice(s, m.awayStart, m.awayEnd);
    HalfSpreadSpanSlice(s, m.homeStart, m.homeEnd);
  }

  /** The spread pattern at `st`. */
  function SpreadAt(s: string, st: nat): (m: Option<SpreadSpan>)
    requires st <= |s|
    ensures m.Some? ==> SpreadShape(s, m.value) && m.value.awayStart == st
  {
    match HalfSpreadAt(s, st)
    case None => None
    case Some(e) =>
      match PriceAt(s, e)
      case None => None
      case Some((p, n)) =>
        match PriceSplit(s, p, n)
        case None => None
        case Some((h, f)) => Some(SpreadSpan(st, e, h, f))
  }

  function SpreadFrom(s: string, st: nat): (m: Option<SpreadSpan>)
    requires st <= |s|
    ensures m.Some? ==> SpreadShape(s, m.value) && st <= m.value.awayStart
    decreases |s| - st
  {
    if st == |s| then None
    else if SpreadAt(s, st).Some? then SpreadAt(s, st)
    else SpreadFrom(s, st + 1)
  }

  /** The first match of the spread pattern in a cell. */
  function MatchSpread(s: string): (m: Option<SpreadSpan>)
    ensures m.Some? ==> SpreadShape(s, m.value)
  {
    SpreadFrom(s, 0)
  }

  /** `[+-]?\d+½?` spans `s[i..e]` exactly, its digit run taken in full. */
  predicate HalfSpreadSpan(s: string, i: nat, e: nat)
    requires i <= e <= |s|
  {
    var a := if i < |s| && (s[i] == '+' || s[i] == '-') then i + 1 else i;
    var d := DigitRun(s, a);
    0 < d && (e == a + d || (e == a + d + 1 && s[a + d] == HALF))
  }

  /** A spread spelling that no digit follows spans its slice exactly. */
  lemma {:induction false} HalfSpreadSpanOf(s: string, i: nat, e: nat)
    requires i < e <= |s| && IsHalfSpread(s[i..e])
    requires e == |s| || !IsDigit(s[e])
    ensures HalfSpreadSpan(s, i, e)
  {
    var x := s[i..e];
    var a := if x[0] == '+' || x[0] == '-' then 1 else 0;
    var d := DigitRun(x, a);
    assert s[i] == x[0];
    DigitRunDigits(x, a);
    DigitRunExact(s, i + a, i + a + d) by {
      forall k | i + a <= k < i + a + d ensures IsDigit(s[k]) {
        assert s[k] == x[k - i];
      }
      if a + d < |x| {
        assert s[i + a + d] == x[a + d];
      }
    }
  }

  /** A spread spelling not followed by `½` is what `HalfSpreadAt` reads. */
  lemma {:induction false} HalfSpreadAtExact(s: string, i: nat, e: nat)
    requires i < e <= |s| && HalfSpreadSpan(s, i, e)
    requires e == |s| || s[e] != HALF
    ensures HalfSpreadAt(s, i) == Some(e)
  {
  }

  /** A price `[-+]\d+` after whitespace, with no digit after it, is read in full. */
  lemma {:induction false} PriceAtExact(s: string, i: nat, p0: nat, q: nat)
    requires i <= p0 < q <= |s| && AllSpace(s, i, p0) && (s[p0] == '+' || s[p0] == '-')
    requires forall k :: p0 < k < q ==> IsDigit(s[k])
    requires p0 + 1 < q && (q == |s| || !IsDigit(s[q]))
    ensures PriceAt(s, i) == Some((p0 + 1, q - p0 - 1))
  {
    SpaceRunExact(s, i, p0);
    DigitRunExact(s, p0 + 1, q);
  }

  /** Where the pieces of a `best_spread` cell sit: the away spread up to
      `e`, the first price's sign at `p0` and its digits up to `q`, the home
      spread from `h` to `f`, and the second price's sign at `g`. */
  datatype SpreadCut = SpreadCut(e: nat, p0: nat, q: nat, h: nat, f: nat, g: nat)

  predicate SpreadPieces(s: string, c: SpreadCut) {
    AwaySpreadPieces(s, c) && HomeSpreadPieces(s, c)
  }

  /** The away spread and the first price, up to where the digits stop. */
  predicate AwaySpreadPieces(s: string, c: SpreadCut) {
    && 0 < c.e <= c.p0 && c.p0 + 1 < c.q < |s|
    && HalfSpreadSpan(s, 0, c.e) && AllSpace(s, c.e, c.p0) && (s[c.p0] == '+' || s[c.p0] == '-')
    && (forall k :: c.p0 < k < c.q ==> IsDigit(s[k])) && !IsDigit(s[c.q])
  }

  /** The home spread after the first price, and the second price. */
  predicate HomeSpreadPieces(s: string, c: SpreadCut) {
    && c.q <= c.h < c.f <= c.g && c.g + 1 < |s|
    && AllSpace(s, c.q, c.h) && (c.q < c.h || s[c.h] == '+' || s[c.h] == '-')
    && HalfSpreadSpan(s, c.h, c.f) && AllSpace(s, c.f, c.g) && (s[c.g] == '+' || s[c.g] == '-')
    && IsDigit(s[c.g + 1])
  }

  /** A cell laid out that way: the first match takes the away and the home
      spread, and the prices between are skipped. */
  lemma {:induction false} SpreadFound(s: string, c: SpreadCut)
    requires SpreadPieces(s, c)
    ensures MatchSpread(s) == Some(SpreadSpan(0, c.e, c.h, c.f))
  {
    AwayPart(s, c);
    HomePart(s, c);
    SpreadAtCut(s, c);
  }

  lemma {:induction false} SpreadAtCut(s: string, c: SpreadCut)
    requires c.p0 + 1 < c.q <= |s| && HalfSpreadAt(s, 0) == Some(c.e)
    requires PriceAt(s, c.e) == Some((c.p0 + 1, c.q - c.p0 - 1)) && HomeSpreadAt(s, c.q) == Some((c.h, c.f))
    ensures MatchSpread(s) == Some(SpreadSpan(0, c.e, c.h, c.f))
  {
    SpreadAtOf(s, c.e, c.p0 + 1, c.q - c.p0 - 1, c.q, c.h, c.f);
  }

  /** The away spread and the first price are read in full. */
  lemma {:induction false} AwayPart(s: string, c: SpreadCut)
    requires AwaySpreadPieces(s, c)
    ensures HalfSpreadAt(s, 0) == Some(c.e) && PriceAt(s, c.e) == Some((c.p0 + 1, c.q - c.p0 - 1))
  {
    assert !IsDigit(s[c.e]) && s[c.e] != HALF by {
      if c.e < c.p0 {
        assert IsSpace(s[c.e]);
      }
    }
    HalfSpreadAtExact(s, 0, c.e);
    PriceAtExact(s, c.e, c.p0, c.q);
  }

  /** The home spread is read in full after the first price, with the
      second price after it. */
  lemma {:induction false} HomePart(s: string, c: SpreadCut)
    requires HomeSpreadPieces(s, c)
    ensures HomeSpreadAt(s, c.q) == Some((c.h, c.f))
  {
    HomeSpreadStart(s, c.q, c.h, c.f);
    assert s[c.f] != HALF by {
      if c.f < c.g {
        assert IsSpace(s[c.f]);
      }
    }
    HalfSpreadAtExact(s, c.h, c.f);
    SpaceRunExact(s, c.f, c.g);
    PriceAtSome(s, c.f, c.g);
    HomeSpreadAtOf(s, c.q, c.h, c.f);
  }

  lemma {:induction false} HomeSpreadStart(s: string, q: nat, h: nat, f: nat)
    requires q <= h < f <= |s| && AllSpace(s, q, h) && (q < h || s[h] == '+' || s[h] == '-')
    requires HalfSpreadSpan(s, h, f)
    ensures q + SpaceRun(s, q) == h
  {
    assert !IsSpace(s[h]) by {
      if s[h] != '+' && s[h] != '-' {
        assert 0 < DigitRun(s, h);
      }
    }
    SpaceRunExact(s, q, h);
  }

  lemma {:induction false} PriceAtSome(s: string, i: nat, g: nat)
    requires i <= g && g + 1 < |s| && i + SpaceRun(s, i) == g
    requires (s[g] == '+' || s[g] == '-') && IsDigit(s[g + 1])
    ensures PriceAt(s, i).Some?
  {
    assert DigitRun(s, g + 1) > 0;
  }

  lemma {:induction false} HomeSpreadAtOf(s: string, q: nat, h: nat, f: nat)
    requires q <= |s| && q + SpaceRun(s, q) == h && HalfSpreadAt(s, h) == Some(f)
    requires PriceAt(s, f).Some?
    ensures HomeSpreadAt(s, q) == Some((h, f))
  {
  }

  lemma {:induction false} SpreadAtOf(s: string, e: nat, p: nat, n: nat, q: nat, h: nat, f: nat)
    requires HalfSpreadAt(s, 0) == Some(e)
    requires PriceAt(s, e) == Some((p, n))
    requires q == p + n
    requires HomeSpreadAt(s, q) == Some((h, f))
    ensures MatchSpread(s) == Some(SpreadSpan(0, e, h, f))
  {
    PriceSplitFirst(s, p, n, q, h, f);
    assert SpreadAt(s, 0) == Some(SpreadSpan(0, e, h, f));
  }

  /** The first price keeps all its digits when the home spread follows. */
  lemma {:induction false} PriceSplitFirst(s: string, p: nat, n: nat, q: nat, h: nat, f: nat)
    requires 0 < n && q == p + n <= |s|
    requires HomeSpreadAt(s, q) == Some((h, f))
    ensures PriceSplit(s, p, n) == Some((h, f))
  {
  }

  predicate IsSign(c: char) {
    c == '+' || c == '-'
  }

  /** The parts of a `best_spread` cell: the away spread `x`, a price with
      sign `c1` and digits `n1`, the home spread `y`, and a price with sign
      `c2` and digits `n2`, with whitespace `w1`, `w2`, `w3` between. Without
      whitespace after the first price the home spread must carry its
      sign, or its digits would run on from the price's. */
  predicate IsSpreadParts(x: string, w1: string, c1: char, n1: string, w2: string,
                          y: string, w3: string, c2: char, n2: string) {
    && IsHalfSpread(x) && IsHalfSpread(y) && IsSign(c1) && IsSign(c2)
    && |n1| > 0 && AllDigits(n1) && |n2| > 0 && AllDigits(n2)
    && (forall k :: 0 <= k < |w1| ==> IsSpace(w1[k]))
    && (forall k :: 0 <= k < |w2| ==> IsSpace(w2[k]))
    && (forall k :: 0 <= k < |w3| ==> IsSpace(w3[k]))
    && (|w2| > 0 || IsSign(y[0]))
  }

  function SpreadCell(x: string, w1: string, c1: char, n1: string, w2: string,
                      y: string, w3: string, c2: char, n2: string): string {
    x + w1 + [c1] + n1 + w2 + y + w3 + [c2] + n2
  }

  /** The cut of such a cell. */
  function SpreadCellCut(x: string, w1: string, n1: string, w2: string, y: string, w3: string): SpreadCut {
    var p0 := |x| + |w1|;
    var q := p0 + 1 + |n1|;
    var h := q + |w2|;
    SpreadCut(|x|, p0, q, h, h + |y|, h + |y| + |w3|)
  }

  /** The first match of the spread pattern on such a cell takes `x` and `y`. */
  lemma {:induction false} MatchSpreadCell(x: string, w1: string, c1: char, n1: string, w2: string,
                                           y: string, w3: string, c2: char, n2: string)
    requires IsSpreadParts(x, w1, c1, n1, w2, y, w3, c2, n2)
    ensures var c := SpreadCellCut(x, w1, n1, w2, y, w3);
            MatchSpread(SpreadCell(x, w1, c1, n1, w2, y, w3, c2, n2)) == Some(SpreadSpan(0, c.e, c.h, c.f))
  {
    var s := SpreadCell(x, w1, c1, n1, w2, y, w3, c2, n2);
    var c := SpreadCellCut(x, w1, n1, w2, y, w3);
    SpreadCellAway(x, w1, c1, n1, w2, y, w3, c2, n2, s, c);
    SpreadCellHome(x, w1, c1, n1, w2, y, w3, c2, n2, s, c);
    SpreadFound(s, c);
  }

  lemma {:induction false} SpreadCellAway(x: string, w1: string, c1: char, n1: string, w2: string,
                                          y: string, w3: string, c2: char, n2: string, s: string, c: SpreadCut)
    requires IsSpreadParts(x, w1, c1, n1, w2, y, w3, c2, n2)
    requires s == SpreadCell(x, w1, c1, n1, w2, y, w3, c2, n2) && c == SpreadCellCut(x, w1, n1, w2, y, w3)
    ensures AwaySpreadPieces(s, c)
  {
    var e, p0, q := c.e, c.p0, c.q;
    assert s[0..e] == x;
    forall k | e <= k < p0 ensures IsSpace(s[k]) {
      assert s[k] == w1[k - e];
    }
    assert s[p0] == c1;
    forall k | p0 < k < q ensures IsDigit(s[k]) {
      assert s[k] == n1[k - p0 - 1];
    }
    if |w2| > 0 {
      assert s[q] == w2[0];
    } else {
      assert s[q] == y[0];
    }
    assert !IsDigit(s[e]) by {
      if e < p0 {
        assert s[e] == w1[0];
      }
    }
    HalfSpreadSpanOf(s, 0, e);
  }

  lemma {:induction false} SpreadCellHome(x: string, w1: string, c1: char, n1: string, w2: string,
                                          y: string, w3: string, c2: char, n2: string, s: string, c: SpreadCut)
    requires IsSpreadParts(x, w1, c1, n1, w2, y, w3, c2, n2)
    requires s == SpreadCell(x, w1, c1, n1, w2, y, w3, c2, n2) && c == SpreadCellCut(x, w1, n1, w2, y, w3)
    ensures HomeSpreadPieces(s, c)
  {
    var q, h, f, g := c.q, c.h, c.f, c.g;
    forall k | q <= k < h ensures IsSpace(s[k]) {
      assert s[k] == w2[k - q];
    }
    assert s[h..f] == y && s[h] == y[0];
    forall k | f <= k < g ensures IsSpace(s[k]) {
      assert s[k] == w3[k - f];
    }
    assert s[g] == c2 && s[g + 1] == n2[0];
    assert !IsDigit(s[f]) by {
      if f < g {
        assert s[f] == w3[0];
      }
    }
    HalfSpreadSpanOf(s, h, f);
  }

  /** The cut of a spread cell falls around `x` and `y`. */
  lemma {:induction false} SpreadCellSlices(x: string, w1: string, c1: char, n1: string, w2: string,
                                            y: string, w3: string, c2: char, n2: string)
    ensures var s, c := SpreadCell(x, w1, c1, n1, w2, y, w3, c2, n2), SpreadCellCut(x, w1, n1, w2, y, w3);
            c.e <= c.h <= c.f <= |s| && s[0..c.e] == x && s[c.h..c.f] == y
  {
  }
}
