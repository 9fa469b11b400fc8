/** The three flatteners of the odds-API payload (h2h, spreads, totals):
    one record per (game, bookmaker, market of the target key). */
module OddsApi {
  import opened Wrappers

  // ---------------------------------------------------------------------
  // The decoded payload. A missing JSON key is `None`; a missing list is
  // the empty sequence, as `get(..., [])` reads it.

  datatype Outcome = Outcome(name: Option<string>, price: Option<real>, point: Option<real>)
  datatype Market = Market(key: Option<string>, outcomes: seq<Outcome>)
  datatype Bookmaker = Bookmaker(title: Option<string>, markets: seq<Market>)
  datatype Game = Game(commenceTime: Option<string>, homeTeam: Option<string>,
                       awayTeam: Option<string>, bookmakers: seq<Bookmaker>)

  // The three output tables, one field per DataFrame column.

  datatype MoneylineRecord = MoneylineRecord(
    gameTime: string, homeTeam: string, awayTeam: string,
    homeMoneyline: Option<real>, awayMoneyline: Option<real>,
    sportsbook: Option<string>)

  datatype SpreadRecord = SpreadRecord(
    gameTime: string, homeTeam: string, awayTeam: string,
    homeSpread: Option<real>, homePrice: Option<real>,
    awaySpread: Option<real>, awayPrice: Option<real>,
    sportsbook: Option<string>)

  datatype TotalsRecord = TotalsRecord(
    gameTime: string, homeTeam: string, awayTeam: string,
    projectedTotal: Option<real>,
    overPoint: Option<real>, overPrice: Option<real>,
    underPoint: Option<real>, underPrice: Option<real>,
    sportsbook: Option<string>)

  const H2H := "h2h"
  const SPREADS := "spreads"
  const TOTALS := "totals"
  const OVER := "Over"
  const UNDER := "Under"

  // ---------------------------------------------------------------------
  // Which markets become records.

  /** Python truthiness of a string field: present and non-empty. */
  predicate Truthy(s: Option<string>) {
    s.Some? && s.value != ""
  }

  /** `all([game_time, home_team, away_team])`. */
  predicate ValidGame(g: Game) {
    Truthy(g.commenceTime) && Truthy(g.homeTeam) && Truthy(g.awayTeam)
  }

  /** The part of a record that every table copies from its game, its
      bookmaker and its market. */
  datatype Slot = Slot(gameTime: string, homeTeam: string, awayTeam: string,
                       sportsbook: Option<string>, outcomes: seq<Outcome>)

  function SlotOf(g: Game, b: Bookmaker, m: Market): Slot
    requires ValidGame(g)
  {
    Slot(g.commenceTime.value, g.homeTeam.value, g.awayTeam.value, b.title, m.outcomes)
  }

  /** The markets of `ms` whose key is `key`, in order. */
  function MarketSlots(g: Game, b: Bookmaker, ms: seq<Market>, key: string): seq<Slot>
    requires ValidGame(g)
  {
    if ms == [] then []
    else
      var last := ms[|ms| - 1];
      MarketSlots(g, b, ms[..|ms| - 1], key) + (if last.key == Some(key) then [SlotOf(g, b, last)] else [])
  }

  function BookmakerSlots(g: Game, bs: seq<Bookmaker>, key: string): seq<Slot>
    requires ValidGame(g)
  {
    if bs == [] then []
    else
      var last := bs[|bs| - 1];
      BookmakerSlots(g, bs[..|bs| - 1], key) + MarketSlots(g, last, last.markets, key)
  }

  function GameSlots(g: Game, key: string): seq<Slot> {
    if ValidGame(g) then BookmakerSlots(g, g.bookmakers, key) else []
  }

  /** One slot per (valid game, bookmaker, market with key `key`), in game,
      then bookmaker, then market order. */
  function Slots(games: seq<Game>, key: string): seq<Slot> {
    if games == [] then []
    else Slots(games[..|games| - 1], key) + GameSlots(games[|games| - 1], key)
  }

  // ---------------------------------------------------------------------
  // Reading the outcomes of one market.

  /** The outcome loop with its `if`/`elif`: the last outcome named `first`,
      and the last outcome named `second` that is not also named `first`. */
  function Pick(outs: seq<Outcome>, first: string, second: string): (Option<Outcome>, Option<Outcome>) {
    if outs == [] then (None, None)
    else
      var (a, b) := Pick(outs[..|outs| - 1], first, second);
      var o := outs[|outs| - 1];
      if o.name == Some(first) then (Some(o), b)
      else if o.name == Some(second) then (a, Some(o))
      else (a, b)
  }

  function PriceOf(o: Option<Outcome>): Option<real> {
    if o.Some? then o.value.price else None
  }

  function PointOf(o: Option<Outcome>): Option<real> {
    if o.Some? then o.value.point else None
  }

  /** `(over + under) / 2 if over and under else None`; a point of 0 is falsy. */
  function ProjectedTotal(over: Option<real>, under: Option<real>): (r: Option<real>)
    ensures r.Some? <==> over.Some? && over.value != 0.0 && under.Some? && under.value != 0.0
    ensures r.Some? ==> over.value - r.value == r.value - under.value
    ensures r.Some? ==> (over.value <= r.value <= under.value || under.value <= r.value <= over.value)
  {
    if over.Some? && over.value != 0.0 && under.Some? && under.value != 0.0
    then Some((over.value + under.value) / 2.0)
    else None
  }

  function MoneylineOf(s: Slot): MoneylineRecord {
    var (home, away) := Pick(s.outcomes, s.homeTeam, s.awayTeam);
    MoneylineRecord(s.gameTime, s.homeTeam, s.awayTeam, PriceOf(home), PriceOf(away), s.sportsbook)
  }

  function SpreadOf(s: Slot): SpreadRecord {
    var (home, away) := Pick(s.outcomes, s.homeTeam, s.awayTeam);
    SpreadRecord(s.gameTime, s.homeTeam, s.awayTeam,
                 PointOf(home), PriceOf(home), PointOf(away), PriceOf(away), s.sportsbook)
  }

  function TotalsOf(s: Slot): TotalsRecord {
    var (over, under) := Pick(s.outcomes, OVER, UNDER);
    TotalsRecord(s.gameTime, s.homeTeam, s.awayTeam,
                 ProjectedTotal(PointOf(over), PointOf(under)),
                 PointOf(over), PriceOf(over), PointOf(under), PriceOf(under), s.sportsbook)
  }

  // ---------------------------------------------------------------------
  // The three flatteners.

  /** `records` holds one record per slot, built by `f`, in slot order. */
  ghost predicate Tabulates<R>(records: seq<R>, slots: seq<Slot>, f: Slot -> R) {
    |records| == |slots| && forall k :: 0 <= k < |records| ==> records[k] == f(slots[k])
  }

  lemma {:induction false} TabulatesAppend<R>(r1: seq<R>, s1: seq<Slot>, r2: seq<R>, s2: seq<Slot>, f: Slot -> R)
    requires Tabulates(r1, s1, f) && Tabulates(r2, s2, f)
    ensures Tabulates(r1 + r2, s1 + s2, f)
  {
  }

  method GetMoneylineOdds(data: seq<Game>) returns (records: seq<MoneylineRecord>)
    ensures |records| == |Slots(data, H2H)|
    ensures forall k :: 0 <= k < |records| ==> records[k] == MoneylineOf(Slots(data, H2H)[k])
  {
    records := [];
    for i := 0 to |data|
      invariant Tabulates(records, Slots(data[..i], H2H), MoneylineOf)
    {
      assert data[..i + 1][..i] == data[..i];
      var more := GameMoneylines(data[i]);
      TabulatesAppend(records, Slots(data[..i], H2H), more, GameSlots(data[i], H2H), MoneylineOf);
      records := records + more;
    }
    assert data[..|data|] == data;
  }

  /** The bookmaker loop of one game; a game failing the `all([...])` check gives nothing. */
  method GameMoneylines(game: Game) returns (records: seq<MoneylineRecord>)
    ensures Tabulates(records, GameSlots(game, H2H), MoneylineOf)
  {
    records := [];
    if !ValidGame(game) {
      return;
    }
    for j := 0 to |game.bookmakers|
      invariant Tabulates(records, BookmakerSlots(game, game.bookmakers[..j], H2H), MoneylineOf)
    {
      assert game.bookmakers[..j + 1][..j] == game.bookmakers[..j];
      var more := BookmakerMoneylines(game, game.bookmakers[j]);
      TabulatesAppend(records, BookmakerSlots(game, game.bookmakers[..j], H2H),
                      more, MarketSlots(game, game.bookmakers[j], game.bookmakers[j].markets, H2H), MoneylineOf);
      records := records + more;
    }
    assert game.bookmakers[..|game.bookmakers|] == game.bookmakers;
  }

  /** The market loop of one bookmaker, for the h2h table. */
  method BookmakerMoneylines(game: Game, bookmaker: Bookmaker) returns (records: seq<MoneylineRecord>)
    requires ValidGame(game)
    ensures Tabulates(records, MarketSlots(game, bookmaker, bookmaker.markets, H2H), MoneylineOf)
  {
    var gameTime, homeTeam, awayTeam := game.commenceTime.value, game.homeTeam.value, game.awayTeam.value;
    var sportsbook := bookmaker.title;
    records := [];
    for m := 0 to |bookmaker.markets|
      invariant Tabulates(records, MarketSlots(game, bookmaker, bookmaker.markets[..m], H2H), MoneylineOf)
    {
      var market := bookmaker.markets[m];
      assert bookmaker.markets[..m + 1][..m] == bookmaker.markets[..m];
      if market.key == Some(H2H) {
        var outcomes := market.outcomes;
        var homeMl: Option<real>, awayMl: Option<real> := None, None;
        for o := 0 to |outcomes|
          invariant homeMl == PriceOf(Pick(outcomes[..o], homeTeam, awayTeam).0)
          invariant awayMl == PriceOf(Pick(outcomes[..o], homeTeam, awayTeam).1)
        {
          assert outcomes[..o + 1][..o] == outcomes[..o];
          if outcomes[o].name == Some(homeTeam) {
            homeMl := outcomes[o].price;
          } else if outcomes[o].name == Some(awayTeam) {
            awayMl := outcomes[o].price;
          }
        }
        assert outcomes[..|outcomes|] == outcomes;
        records := records + [MoneylineRecord(gameTime, homeTeam, awayTeam, homeMl, awayMl, sportsbook)];
      }
    }
    assert bookmaker.markets[..|bookmaker.markets|] == bookmaker.markets;
  }

  method GetSpreadOdds(data: seq<Game>) returns (records: seq<SpreadRecord>)
    ensures |records| == |Slots(data, SPREADS)|
    ensures forall k :: 0 <= k < |records| ==> records[k] == SpreadOf(Slots(data, SPREADS)[k])
  {
    records := [];
    for i := 0 to |data|
      invariant Tabulates(records, Slots(data[..i], SPREADS), SpreadOf)
    {
      assert data[..i + 1][..i] == data[..i];
      var more := GameSpreads(data[i]);
      TabulatesAppend(records, Slots(data[..i], SPREADS), more, GameSlots(data[i], SPREADS), SpreadOf);
      records := records + more;
    }
    assert data[..|data|] == data;
  }

  /** The bookmaker loop of one game; a game failing the `all([...])` check gives nothing. */
  method GameSpreads(game: Game) returns (records: seq<SpreadRecord>)
    ensures Tabulates(records, GameSlots(game, SPREADS), SpreadOf)
  {
    records := [];
    if !ValidGame(game) {
      return;
    }
    for j := 0 to |game.bookmakers|
      invariant Tabulates(records, BookmakerSlots(game, game.bookmakers[..j], SPREADS), SpreadOf)
    {
      assert game.bookmakers[..j + 1][..j] == game.bookmakers[..j];
      var more := BookmakerSpreads(game, game.bookmakers[j]);
      TabulatesAppend(records, BookmakerSlots(game, game.bookmakers[..j], SPREADS),
                      more, MarketSlots(game, game.bookmakers[j], game.bookmakers[j].markets, SPREADS), SpreadOf);
      records := records + more;
    }
    assert game.bookmakers[..|game.bookmakers|] == game.bookmakers;
  }

  /** The market loop of one bookmaker, for the spreads table. */
  method BookmakerSpreads(game: Game, bookmaker: Bookmaker) returns (records: seq<SpreadRecord>)
    requires ValidGame(game)
    ensures Tabulates(records, MarketSlots(game, bookmaker, bookmaker.markets, SPREADS), SpreadOf)
  {
    var gameTime, homeTeam, awayTeam := game.commenceTime.value, game.homeTeam.value, game.awayTeam.value;
    var sportsbook := bookmaker.title;
    records := [];
    for m := 0 to |bookmaker.markets|
      invariant Tabulates(records, MarketSlots(game, bookmaker, bookmaker.markets[..m], SPREADS), SpreadOf)
    {
      var market := bookmaker.markets[m];
      assert bookmaker.markets[..m + 1][..m] == bookmaker.markets[..m];
      if market.key == Some(SPREADS) {
        var homeSpread, homePrice, awaySpread, awayPrice := ReadSpreadOutcomes(market.outcomes, homeTeam, awayTeam);
        records := records + [SpreadRecord(gameTime, homeTeam, awayTeam,
                                           homeSpread, homePrice, awaySpread, awayPrice, sportsbook)];
      }
    }
    assert bookmaker.markets[..|bookmaker.markets|] == bookmaker.markets;
  }

  /** The outcome loop of the spreads table: point and price of each side. */
  method ReadSpreadOutcomes(outcomes: seq<Outcome>, homeTeam: string, awayTeam: string)
    returns (homeSpread: Option<real>, homePrice: Option<real>, awaySpread: Option<real>, awayPrice: Option<real>)
    ensures homeSpread == PointOf(Pick(outcomes, homeTeam, awayTeam).0)
    ensures homePrice == PriceOf(Pick(outcomes, homeTeam, awayTeam).0)
    ensures awaySpread == PointOf(Pick(outcomes, homeTeam, awayTeam).1)
    ensures awayPrice == PriceOf(Pick(outcomes, homeTeam, awayTeam).1)
  {
    homeSpread, awaySpread, homePrice, awayPrice := None, None, None, None;
    for o := 0 to |outcomes|
      invariant homeSpread == PointOf(Pick(outcomes[..o], homeTeam, awayTeam).0)
      invariant homePrice == PriceOf(Pick(outcomes[..o], homeTeam, awayTeam).0)
      invariant awaySpread == PointOf(Pick(outcomes[..o], homeTeam, awayTeam).1)
      invariant awayPrice == PriceOf(Pick(outcomes[..o], homeTeam, awayTeam).1)
    {
      assert outcomes[..o + 1][..o] == outcomes[..o];
      if outcomes[o].name == Some(homeTeam) {
        homeSpread := outcomes[o].point;
        homePrice := outcomes[o].price;
      } else if outcomes[o].name == Some(awayTeam) {
        awaySpread := outcomes[o].point;
        awayPrice := outcomes[o].price;
      }
    }
    assert outcomes[..|outcomes|] == outcomes;
  }

  /** The outcome loop of the totals table: point and price of `Over` and `Under`. */
  method ReadTotalsOutcomes(outcomes: seq<Outcome>)
    returns (over: Option<real>, overPrice: Option<real>, under: Option<real>, underPrice: Option<real>)
    ensures over == PointOf(Pick(outcomes, OVER, UNDER).0)
    ensures overPrice == PriceOf(Pick(outcomes, OVER, UNDER).0)
    ensures under == PointOf(Pick(outcomes, OVER, UNDER).1)
    ensures underPrice == PriceOf(Pick(outcomes, OVER, UNDER).1)
  {
    over, under, overPrice, underPrice := None, None, None, None;
    for o := 0 to |outcomes|
      invariant over == PointOf(Pick(outcomes[..o], OVER, UNDER).0)
      invariant overPrice == PriceOf(Pick(outcomes[..o], OVER, UNDER).0)
      invariant under == PointOf(Pick(outcomes[..o], OVER, UNDER).1)
      invariant underPrice == PriceOf(Pick(outcomes[..o], OVER, UNDER).1)
    {
      assert outcomes[..o + 1][..o] == outcomes[..o];
      if outcomes[o].name == Some(OVER) {
        over := outcomes[o].point;
        overPrice := outcomes[o].price;
      } else if outcomes[o].name == Some(UNDER) {
        under := outcomes[o].point;
        underPrice := outcomes[o].price;
      }
    }
    assert outcomes[..|outcomes|] == outcomes;
  }

  method GetTotalsOdds(data: seq<Game>) returns (records: seq<TotalsRecord>)
    ensures |records| == |Slots(data, TOTALS)|
    ensures forall k :: 0 <= k < |records| ==> records[k] == TotalsOf(Slots(data, TOTALS)[k])
  {
    records := [];
    for i := 0 to |data|
      invariant Tabulates(records, Slots(data[..i], TOTALS), TotalsOf)
    {
      assert data[..i + 1][..i] == data[..i];
      var more := GameTotals(data[i]);
      TabulatesAppend(records, Slots(data[..i], TOTALS), more, GameSlots(data[i], TOTALS), TotalsOf);
      records := records + more;
    }
    assert data[..|data|] == data;
  }

  /** The bookmaker loop of one game; a game failing the `all([...])` check gives nothing. */
  method GameTotals(game: Game) returns (records: seq<TotalsRecord>)
    ensures Tabulates(records, GameSlots(game, TOTALS), TotalsOf)
  {
    records := [];
    if !ValidGame(game) {
      return;
    }
    for j := 0 to |game.bookmakers|
      invariant Tabulates(records, BookmakerSlots(game, game.bookmakers[..j], TOTALS), TotalsOf)
    {
      assert game.bookmakers[..j + 1][..j] == game.bookmakers[..j];
      var more := BookmakerTotals(game, game.bookmakers[j]);
      TabulatesAppend(records, BookmakerSlots(game, game.bookmakers[..j], TOTALS),
                      more, MarketSlots(game, game.bookmakers[j], game.bookmakers[j].markets, TOTALS), TotalsOf);
      records := records + more;
    }
    assert game.bookmakers[..|game.bookmakers|] == game.bookmakers;
  }

  /** The market loop of one bookmaker, for the totals table. */
  method BookmakerTotals(game: Game, bookmaker: Bookmaker) returns (records: seq<TotalsRecord>)
    requires ValidGame(game)
    ensures Tabulates(records, MarketSlots(game, bookmaker, bookmaker.markets, TOTALS), TotalsOf)
  {
    var gameTime, homeTeam, awayTeam := game.commenceTime.value, game.homeTeam.value, game.awayTeam.value;
    var sportsbook := bookmaker.title;
    records := [];
    for m := 0 to |bookmaker.markets|
      invariant Tabulates(records, MarketSlots(game, bookmaker, bookmaker.markets[..m], TOTALS), TotalsOf)
    {
      var market := bookmaker.markets[m];
      assert bookmaker.markets[..m + 1][..m] == bookmaker.markets[..m];
      if market.key == Some(TOTALS) {
        var over, overPrice, under, underPrice := ReadTotalsOutcomes(market.outcomes);
        var projectedTotal := if over.Some? && over.value != 0.0 && under.Some? && under.value != 0.0
                              then Some((over.value + under.value) / 2.0) else None;
        records := records + [TotalsRecord(gameTime, homeTeam, awayTeam, projectedTotal,
                                           over, overPrice, under, underPrice, sportsbook)];
      }
    }
    assert bookmaker.markets[..|bookmaker.markets|] == bookmaker.markets;
  }

  // ---------------------------------------------------------------------
  // Which records are produced, and in which order.

  lemma {:induction false} MarketSlotsAppend(g: Game, b: Bookmaker, xs: seq<Market>, ys: seq<Market>, key: string)
    requires ValidGame(g)
    ensures MarketSlots(g, b, xs + ys, key) == MarketSlots(g, b, xs, key) + MarketSlots(g, b, ys, key)
    decreases |ys|
  {
    if ys != [] {
      var n := |ys| - 1;
      assert (xs + ys)[..|xs + ys| - 1] == xs + ys[..n];
      MarketSlotsAppend(g, b, xs, ys[..n], key);
    } else {
      assert xs + ys == xs;
    }
  }

  lemma {:induction false} BookmakerSlotsAppend(g: Game, xs: seq<Bookmaker>, ys: seq<Bookmaker>, key: string)
    requires ValidGame(g)
    ensures BookmakerSlots(g, xs + ys, key) == BookmakerSlots(g, xs, key) + BookmakerSlots(g, ys, key)
    decreases |ys|
  {
    if ys != [] {
      var n := |ys| - 1;
      assert (xs + ys)[..|xs + ys| - 1] == xs + ys[..n];
      BookmakerSlotsAppend(g, xs, ys[..n], key);
    } else {
      assert xs + ys == xs;
    }
  }

  /** Records of earlier games come before records of later games. */
  lemma {:induction false} SlotsAppend(xs: seq<Game>, ys: seq<Game>, key: string)
    ensures Slots(xs + ys, key) == Slots(xs, key) + Slots(ys, key)
    decreases |ys|
  {
    if ys != [] {
      var n := |ys| - 1;
      assert (xs + ys)[..|xs + ys| - 1] == xs + ys[..n];
      SlotsAppend(xs, ys[..n], key);
    } else {
      assert xs + ys == xs;
    }
  }

  /** Records come in game, then bookmaker, then market order: the records
      of game `i` sit between those of the games before and after it, and
      within a game those of bookmaker `j` between its neighbours', and so
      on for markets. */
  lemma {:induction false} GameOrder(games: seq<Game>, i: nat, key: string)
    requires i < |games|
    ensures Slots(games, key) == Slots(games[..i], key) + GameSlots(games[i], key) + Slots(games[i + 1..], key)
  {
    assert games == games[..i] + [games[i]] + games[i + 1..];
    SlotsAppend(games[..i] + [games[i]], games[i + 1..], key);
    SlotsAppend(games[..i], [games[i]], key);
    assert [games[i]][..0] == [];
  }

  lemma {:induction false} BookmakerOrder(g: Game, j: nat, key: string)
    requires ValidGame(g) && j < |g.bookmakers|
    ensures GameSlots(g, key) ==
            BookmakerSlots(g, g.bookmakers[..j], key)
            + MarketSlots(g, g.bookmakers[j], g.bookmakers[j].markets, key)
            + BookmakerSlots(g, g.bookmakers[j + 1..], key)
  {
    var bs := g.bookmakers;
    assert bs == bs[..j] + [bs[j]] + bs[j + 1..];
    BookmakerSlotsAppend(g, bs[..j] + [bs[j]], bs[j + 1..], key);
    BookmakerSlotsAppend(g, bs[..j], [bs[j]], key);
    assert [bs[j]][..0] == [];
  }

  lemma {:induction false} MarketOrder(g: Game, b: Bookmaker, m: nat, key: string)
    requires ValidGame(g) && m < |b.markets|
    ensures MarketSlots(g, b, b.markets, key) ==
            MarketSlots(g, b, b.markets[..m], key)
            + (if b.markets[m].key == Some(key) then [SlotOf(g, b, b.markets[m])] else [])
            + MarketSlots(g, b, b.markets[m + 1..], key)
  {
    var ms := b.markets;
    assert ms == ms[..m] + [ms[m]] + ms[m + 1..];
    MarketSlotsAppend(g, b, ms[..m] + [ms[m]], ms[m + 1..], key);
    MarketSlotsAppend(g, b, ms[..m], [ms[m]], key);
    assert [ms[m]][..0] == [];
  }

  /** A game without a (non-empty) commence time, home team or away team
      contributes no record to any table. */
  lemma {:induction false} InvalidGameContributesNothing(before: seq<Game>, g: Game, after: seq<Game>, key: string)
    requires !ValidGame(g)
    ensures Slots(before + [g] + after, key) == Slots(before + after, key)
  {
    var withG := before + [g];
    assert withG[..|withG| - 1] == before;
    assert Slots(withG, key) == Slots(before, key) + GameSlots(g, key);
    SlotsAppend(withG, after, key);
    SlotsAppend(before, after, key);
  }

  lemma {:induction false} MarketSlotsSound(g: Game, b: Bookmaker, ms: seq<Market>, key: string, s: Slot)
    requires ValidGame(g) && s in MarketSlots(g, b, ms, key)
    ensures exists m :: 0 <= m < |ms| && ms[m].key == Some(key) && s == SlotOf(g, b, ms[m])
  {
    var n := |ms| - 1;
    if s in MarketSlots(g, b, ms[..n], key) {
      MarketSlotsSound(g, b, ms[..n], key, s);
      var m :| 0 <= m < n && ms[..n][m].key == Some(key) && s == SlotOf(g, b, ms[..n][m]);
      assert ms[m] == ms[..n][m];
    } else {
      assert ms[n].key == Some(key) && s == SlotOf(g, b, ms[n]);
    }
  }

  lemma {:induction false} BookmakerSlotsSound(g: Game, bs: seq<Bookmaker>, key: string, s: Slot)
    requires ValidGame(g) && s in BookmakerSlots(g, bs, key)
    ensures exists j, m :: 0 <= j < |bs| && 0 <= m < |bs[j].markets| && bs[j].markets[m].key == Some(key)
                           && s == SlotOf(g, bs[j], bs[j].markets[m])
  {
    var n := |bs| - 1;
    if s in BookmakerSlots(g, bs[..n], key) {
      BookmakerSlotsSound(g, bs[..n], key, s);
      var j, m :| 0 <= j < n && 0 <= m < |bs[..n][j].markets| && bs[..n][j].markets[m].key == Some(key)
                  && s == SlotOf(g, bs[..n][j], bs[..n][j].markets[m]);
      assert bs[j] == bs[..n][j];
    } else {
      MarketSlotsSound(g, bs[n], bs[n].markets, key, s);
    }
  }

  /** Every record comes from a valid game, one of its bookmakers and one of
      that bookmaker's markets whose key is the target key, and copies the
      game's time and team names and the bookmaker's title unchanged. */
  lemma {:induction false} SlotsSound(games: seq<Game>, key: string, s: Slot)
    requires s in Slots(games, key)
    ensures exists i, j, m :: 0 <= i < |games| && ValidGame(games[i])
                              && 0 <= j < |games[i].bookmakers| && 0 <= m < |games[i].bookmakers[j].markets|
                              && games[i].bookmakers[j].markets[m].key == Some(key)
                              && s == SlotOf(games[i], games[i].bookmakers[j], games[i].bookmakers[j].markets[m])
  {
    var n := |games| - 1;
    if s in Slots(games[..n], key) {
      SlotsSound(games[..n], key, s);
      var i, j, m :| 0 <= i < n && ValidGame(games[..n][i])
                     && 0 <= j < |games[..n][i].bookmakers| && 0 <= m < |games[..n][i].bookmakers[j].markets|
                     && games[..n][i].bookmakers[j].markets[m].key == Some(key)
                     && s == SlotOf(games[..n][i], games[..n][i].bookmakers[j], games[..n][i].bookmakers[j].markets[m]);
      assert games[i] == games[..n][i];
    } else {
      BookmakerSlotsSound(games[n], games[n].bookmakers, key, s);
    }
  }

  /** Every market with the target key, of every bookmaker of every valid
      game, has its record. */
  lemma {:induction false} SlotsComplete(games: seq<Game>, key: string, i: nat, j: nat, m: nat)
    requires i < |games| && ValidGame(games[i])
    requires j < |games[i].bookmakers| && m < |games[i].bookmakers[j].markets|
    requires games[i].bookmakers[j].markets[m].key == Some(key)
    ensures SlotOf(games[i], games[i].bookmakers[j], games[i].bookmakers[j].markets[m]) in Slots(games, key)
  {
    GameOrder(games, i, key);
    BookmakerOrder(games[i], j, key);
    MarketOrder(games[i], games[i].bookmakers[j], m, key);
  }

  // Counting the markets with the target key, from the front.

  function KeyedMarkets(ms: seq<Market>, key: string): nat {
    if ms == [] then 0 else (if ms[0].key == Some(key) then 1 else 0) + KeyedMarkets(ms[1..], key)
  }

  function KeyedInBookmakers(bs: seq<Bookmaker>, key: string): nat {
    if bs == [] then 0 else KeyedMarkets(bs[0].markets, key) + KeyedInBookmakers(bs[1..], key)
  }

  function KeyedInGames(games: seq<Game>, key: string): nat {
    if games == [] then 0
    else (if ValidGame(games[0]) then KeyedInBookmakers(games[0].bookmakers, key) else 0)
         + KeyedInGames(games[1..], key)
  }

  lemma {:induction false} MarketSlotsCount(g: Game, b: Bookmaker, ms: seq<Market>, key: string)
    requires ValidGame(g)
    ensures |MarketSlots(g, b, ms, key)| == KeyedMarkets(ms, key)
    decreases |ms|
  {
    if ms != [] {
      assert ms == [ms[0]] + ms[1..];
      MarketSlotsAppend(g, b, [ms[0]], ms[1..], key);
      assert [ms[0]][..0] == [];
      MarketSlotsCount(g, b, ms[1..], key);
    }
  }

  lemma {:induction false} BookmakerSlotsCount(g: Game, bs: seq<Bookmaker>, key: string)
    requires ValidGame(g)
    ensures |BookmakerSlots(g, bs, key)| == KeyedInBookmakers(bs, key)
    decreases |bs|
  {
    if bs != [] {
      assert bs == [bs[0]] + bs[1..];
      BookmakerSlotsAppend(g, [bs[0]], bs[1..], key);
      assert [bs[0]][..0] == [];
      MarketSlotsCount(g, bs[0], bs[0].markets, key);
      BookmakerSlotsCount(g, bs[1..], key);
    }
  }

  /** Each table has exactly as many records as there are (valid game,
      bookmaker, market with the target key) triples. */
  lemma {:induction false} SlotsCount(games: seq<Game>, key: string)
    ensures |Slots(games, key)| == KeyedInGames(games, key)
    decreases |games|
  {
    if games != [] {
      assert games == [games[0]] + games[1..];
      SlotsAppend([games[0]], games[1..], key);
      assert [games[0]][..0] == [];
      if ValidGame(games[0]) {
        BookmakerSlotsCount(games[0], games[0].bookmakers, key);
      }
      SlotsCount(games[1..], key);
    }
  }

  // ---------------------------------------------------------------------
  // Which outcome each side's values come from.

  /** `outs[i]` is the last outcome named `name`. */
  predicate IsLastNamed(outs: seq<Outcome>, name: string, i: int) {
    0 <= i < |outs| && outs[i].name == Some(name)
    && forall j :: i < j < |outs| ==> outs[j].name != Some(name)
  }

  /** The first side is the last outcome named `first`, absent when none is. */
  lemma {:induction false} PickFirst(outs: seq<Outcome>, first: string, second: string)
    ensures Pick(outs, first, second).0.None? <==> forall j :: 0 <= j < |outs| ==> outs[j].name != Some(first)
    ensures forall i :: IsLastNamed(outs, first, i) ==> Pick(outs, first, second).0 == Some(outs[i])
  {
    PickFirstAbsent(outs, first, second);
    PickFirstLast(outs, first, second);
  }

  lemma {:induction false} PickFirstAbsent(outs: seq<Outcome>, first: string, second: string)
    ensures Pick(outs, first, second).0.None? <==> forall j :: 0 <= j < |outs| ==> outs[j].name != Some(first)
    decreases |outs|
  {
    if outs != [] {
      var pre := outs[..|outs| - 1];
      PickFirstAbsent(pre, first, second);
      assert forall j :: 0 <= j < |pre| ==> pre[j] == outs[j];
    }
  }

  lemma {:induction false} PickFirstLast(outs: seq<Outcome>, first: string, second: string)
    ensures forall i :: IsLastNamed(outs, first, i) ==> Pick(outs, first, second).0 == Some(outs[i])
    decreases |outs|
  {
    if outs != [] {
      var n := |outs| - 1;
      var pre := outs[..n];
      PickFirstLast(pre, first, second);
      forall i | IsLastNamed(outs, first, i) && i < n
        ensures IsLastNamed(pre, first, i)
      {
      }
    }
  }

  /** The second side is never an outcome named `first` (the `elif`); when
      the two names differ it is the last outcome named `second`, absent when
      none is. */
  lemma {:induction false} PickSecond(outs: seq<Outcome>, first: string, second: string)
    ensures Pick(outs, first, second).1.Some? ==> Pick(outs, first, second).1.value.name == Some(second) != Some(first)
    ensures first != second ==>
              (Pick(outs, first, second).1.None? <==> forall j :: 0 <= j < |outs| ==> outs[j].name != Some(second))
    ensures first != second ==>
              forall i :: IsLastNamed(outs, second, i) ==> Pick(outs, first, second).1 == Some(outs[i])
  {
    PickSecondName(outs, first, second);
    if first != second {
      PickSecondAbsent(outs, first, second);
      PickSecondLast(outs, first, second);
    }
  }

  lemma {:induction false} PickSecondName(outs: seq<Outcome>, first: string, second: string)
    ensures Pick(outs, first, second).1.Some? ==> Pick(outs, first, second).1.value.name == Some(second) != Some(first)
    decreases |outs|
  {
    if outs != [] {
      PickSecondName(outs[..|outs| - 1], first, second);
    }
  }

  lemma {:induction false} PickSecondAbsent(outs: seq<Outcome>, first: string, second: string)
    requires first != second
    ensures Pick(outs, first, second).1.None? <==> forall j :: 0 <= j < |outs| ==> outs[j].name != Some(second)
    decreases |outs|
  {
    if outs != [] {
      var pre := outs[..|outs| - 1];
      PickSecondAbsent(pre, first, second);
      assert forall j :: 0 <= j < |pre| ==> pre[j] == outs[j];
    }
  }

  lemma {:induction false} PickSecondLast(outs: seq<Outcome>, first: string, second: string)
    requires first != second
    ensures forall i :: IsLastNamed(outs, second, i) ==> Pick(outs, first, second).1 == Some(outs[i])
    decreases |outs|
  {
    if outs != [] {
      var n := |outs| - 1;
      var pre := outs[..n];
      PickSecondLast(pre, first, second);
      forall i | IsLastNamed(outs, second, i) && i < n
        ensures IsLastNamed(pre, second, i)
      {
      }
    }
  }

  /** With a single name for both sides, the second side is always absent. */
  lemma {:induction false} PickSameNames(outs: seq<Outcome>, name: string)
    ensures Pick(outs, name, name).1.None?
  {
    PickSecond(outs, name, name);
  }

  /** An outcome named neither `first` nor `second` has no effect, wherever
      it appears; for totals, anything not named exactly `Over` or `Under`. */
  lemma {:induction false} PickIgnoresOtherNames(xs: seq<Outcome>, o: Outcome, ys: seq<Outcome>, first: string, second: string)
    requires o.name != Some(first) && o.name != Some(second)
    ensures Pick(xs + [o] + ys, first, second) == Pick(xs + ys, first, second)
    decreases |ys|
  {
    if ys == [] {
      assert (xs + [o] + ys)[..|xs|] == xs;
      assert xs + ys == xs;
    } else {
      var n := |ys| - 1;
      assert (xs + [o] + ys)[..|xs + [o] + ys| - 1] == xs + [o] + ys[..n];
      assert (xs + ys)[..|xs + ys| - 1] == xs + ys[..n];
      PickIgnoresOtherNames(xs, o, ys[..n], first, second);
    }
  }

  /** A moneyline is the price of the last outcome named after that team;
      absent when no outcome is; and the away side is never set by an
      outcome named after the home team. */
  lemma {:induction false} MoneylineFromLastMatch(s: Slot)
    ensures forall i :: IsLastNamed(s.outcomes, s.homeTeam, i) ==> MoneylineOf(s).homeMoneyline == s.outcomes[i].price
    ensures (forall j :: 0 <= j < |s.outcomes| ==> s.outcomes[j].name != Some(s.homeTeam)) ==> MoneylineOf(s).homeMoneyline.None?
    ensures s.homeTeam != s.awayTeam ==>
              forall i :: IsLastNamed(s.outcomes, s.awayTeam, i) ==> MoneylineOf(s).awayMoneyline == s.outcomes[i].price
    ensures (forall j :: 0 <= j < |s.outcomes| ==> s.outcomes[j].name != Some(s.awayTeam)) ==> MoneylineOf(s).awayMoneyline.None?
    ensures s.homeTeam == s.awayTeam ==> MoneylineOf(s).awayMoneyline.None?
  {
    PickFirst(s.outcomes, s.homeTeam, s.awayTeam);
    PickSecond(s.outcomes, s.homeTeam, s.awayTeam);
  }

  /** Each side's spread point and price come from one and the same outcome,
      the last one named after that team, or are both absent. */
  lemma {:induction false} SpreadSidesFromOneOutcome(s: Slot)
    ensures var r := SpreadOf(s);
            || ((forall j :: 0 <= j < |s.outcomes| ==> s.outcomes[j].name != Some(s.homeTeam))
                && r.homeSpread.None? && r.homePrice.None?)
            || (exists i :: (IsLastNamed(s.outcomes, s.homeTeam, i)
                             && r.homeSpread == s.outcomes[i].point && r.homePrice == s.outcomes[i].price))
    ensures var r := SpreadOf(s);
            || (r.awaySpread.None? && r.awayPrice.None?)
            || (exists i :: (0 <= i < |s.outcomes| && s.outcomes[i].name == Some(s.awayTeam) != Some(s.homeTeam)
                             && r.awaySpread == s.outcomes[i].point && r.awayPrice == s.outcomes[i].price))
  {
    PickFirst(s.outcomes, s.homeTeam, s.awayTeam);
    PickSecond(s.outcomes, s.homeTeam, s.awayTeam);
    var (home, away) := Pick(s.outcomes, s.homeTeam, s.awayTeam);
    if home.Some? {
      var i := LastNamedIndex(s.outcomes, s.homeTeam);
    }
    if away.Some? {
      PickSecondIsAnOutcome(s.outcomes, s.homeTeam, s.awayTeam);
    }
  }

  /** The index of the last outcome named `name`, when there is one. */
  lemma {:induction false} LastNamedIndex(outs: seq<Outcome>, name: string) returns (i: int)
    requires exists j :: 0 <= j < |outs| && outs[j].name == Some(name)
    ensures IsLastNamed(outs, name, i)
  {
    var n := |outs| - 1;
    if outs[n].name == Some(name) {
      i := n;
    } else {
      var j :| 0 <= j < |outs| && outs[j].name == Some(name);
      assert outs[..n][j] == outs[j];
      i := LastNamedIndex(outs[..n], name);
      assert outs[..n][i] == outs[i];
    }
  }

  lemma {:induction false} PickSecondIsAnOutcome(outs: seq<Outcome>, first: string, second: string)
    ensures Pick(outs, first, second).1.Some? ==> Pick(outs, first, second).1.value in outs
    ensures Pick(outs, first, second).0.Some? ==> Pick(outs, first, second).0.value in outs
  {
    if outs != [] {
      var n := |outs| - 1;
      PickSecondIsAnOutcome(outs[..n], first, second);
      assert outs == outs[..n] + [outs[n]];
    }
  }

  /** The projected total of a totals record is the mean of its over and
      under points, present exactly when both points are present and
      non-zero. */
  lemma {:induction false} TotalsProjection(s: Slot)
    ensures var r := TotalsOf(s);
            && (r.projectedTotal.Some? <==> r.overPoint.Some? && r.overPoint.value != 0.0
                                            && r.underPoint.Some? && r.underPoint.value != 0.0)
            && (r.projectedTotal.Some? ==> r.projectedTotal.value * 2.0 == r.overPoint.value + r.underPoint.value)
  {
  }

  /** 145.5 and 144.5 project to 145.0; a zero point projects to nothing. */
  lemma {:induction false} ProjectedTotalExample()
    ensures ProjectedTotal(Some(145.5), Some(144.5)) == Some(145.0)
    ensures ProjectedTotal(Some(0.0), Some(144.5)) == None
  {
  }
}
