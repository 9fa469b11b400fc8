/** The team-name crosswalk: `convert_crosswalk_to_json` turns the rows of
    the crosswalk table into canonical name → sorted, duplicate-free
    variations, and `create_lookup_dict` flattens that into lower-cased
    variation → canonical name. */
module Crosswalk {
  import opened Wrappers
  import opened Text
  import opened StringOrder

  /** A Python `dict` keyed by strings: its keys in insertion order and
      what each key holds. */
  datatype Dict<V> = Dict(keys: seq<string>, entries: map<string, V>)

  predicate ValidDict<V>(d: Dict<V>) {
    && (forall i, j :: 0 <= i < j < |d.keys| ==> d.keys[i] != d.keys[j])
    && (forall k :: k in d.entries ==> k in d.keys)
    && Keyed(d)
  }

  /** `d[k] = v`: a new key goes last, an existing key keeps its place and
      gets the new value. */
  function Put<V>(d: Dict<V>, k: string, v: V): (r: Dict<V>)
    ensures ValidDict(d) ==> ValidDict(r)
    ensures r.entries == d.entries[k := v]
  {
    Dict(if k in d.entries then d.keys else d.keys + [k], d.entries[k := v])
  }

  /** One row of the crosswalk table; `None` is a missing cell. */
  type Row = seq<Option<string>>

  /** `[val for val in row.values if pd.notna(val)]`. */
  function NonNull(row: Row): (r: seq<string>)
    ensures |r| <= |row|
    ensures forall v :: v in r <==> Some(v) in row
  {
    if |row| == 0 then []
    else
      var init := row[..|row| - 1];
      assert row == init + [row[|row| - 1]];
      match row[|row| - 1]
      case Some(v) => NonNull(init) + [v]
      case None => NonNull(init)
  }

  /** The entry of a row: its non-missing cells, sorted, each once. */
  function Entry(row: Row): (r: seq<string>)
    ensures StrictlySorted(r)
    ensures forall v :: v in r <==> Some(v) in row
  {
    SortedDistinct(NonNull(row))
  }

  /** Every row has its `API` cell (at position `api`) filled in. */
  predicate HasCanonical(rows: seq<Row>, api: nat) {
    forall i :: 0 <= i < |rows| ==> api < |rows[i]| && rows[i][api].Some?
  }

  /** The `API` column. */
  function Canonicals(rows: seq<Row>, api: nat): (r: seq<string>)
    requires HasCanonical(rows, api)
    ensures |r| == |rows|
    ensures forall i :: 0 <= i < |rows| ==> r[i] == rows[i][api].value
  {
    seq(|rows|, i requires 0 <= i < |rows| => rows[i][api].value)
  }

  /** `team_names` after the rows `rows`, in order. */
  function TeamNamesOf(rows: seq<Row>, api: nat): Dict<seq<string>>
    requires HasCanonical(rows, api)
  {
    if |rows| == 0 then Dict([], map[])
    else
      var row := rows[|rows| - 1];
      Put(TeamNamesOf(rows[..|rows| - 1], api), row[api].value, Entry(row))
  }

  /** The strings of `xs`, each at its first appearance. */
  function FirstAppearances(xs: seq<string>): (r: seq<string>)
    ensures forall y :: y in r <==> y in xs
    ensures forall i, j :: 0 <= i < j < |r| ==> r[i] != r[j]
  {
    if |xs| == 0 then []
    else
      var init := xs[..|xs| - 1];
      var d := FirstAppearances(init);
      assert xs == init + [xs[|xs| - 1]];
      if xs[|xs| - 1] in d then d else d + [xs[|xs| - 1]]
  }

  /** `team_names` has one key per distinct `API` value, in the order of
      their first rows. */
  lemma {:induction false} TeamNamesKeys(rows: seq<Row>, api: nat)
    requires HasCanonical(rows, api)
    ensures ValidDict(TeamNamesOf(rows, api))
    ensures TeamNamesOf(rows, api).keys == FirstAppearances(Canonicals(rows, api))
    ensures forall k :: k in TeamNamesOf(rows, api).entries <==> k in Canonicals(rows, api)
  {
    TeamNamesValid(rows, api);
    TeamNamesDomain(rows, api);
    TeamNamesOrder(rows, api);
  }

  lemma {:induction false} TeamNamesValid(rows: seq<Row>, api: nat)
    requires HasCanonical(rows, api)
    ensures ValidDict(TeamNamesOf(rows, api))
    decreases |rows|
  {
    if |rows| > 0 {
      TeamNamesValid(rows[..|rows| - 1], api);
    }
  }

  /** The `API` column of all rows: that of all but the last, then the last's. */
  lemma {:induction false} CanonicalsSnoc(rows: seq<Row>, api: nat)
    requires HasCanonical(rows, api) && |rows| > 0
    ensures Canonicals(rows, api) == Canonicals(rows[..|rows| - 1], api) + [rows[|rows| - 1][api].value]
  {
    var c := Canonicals(rows, api);
    var init := rows[..|rows| - 1];
    assert c[..|rows| - 1] == Canonicals(init, api);
    assert c == c[..|rows| - 1] + [c[|rows| - 1]];
  }

  lemma {:induction false} TeamNamesDomain(rows: seq<Row>, api: nat)
    requires HasCanonical(rows, api)
    ensures forall k :: k in TeamNamesOf(rows, api).entries <==> k in Canonicals(rows, api)
    decreases |rows|
  {
    if |rows| > 0 {
      TeamNamesDomain(rows[..|rows| - 1], api);
      CanonicalsSnoc(rows, api);
    }
  }

  lemma {:induction false} TeamNamesOrder(rows: seq<Row>, api: nat)
    requires HasCanonical(rows, api)
    ensures TeamNamesOf(rows, api).keys == FirstAppearances(Canonicals(rows, api))
    decreases |rows|
  {
    if |rows| > 0 {
      var init := rows[..|rows| - 1];
      TeamNamesOrder(init, api);
      TeamNamesDomain(init, api);
      CanonicalsSnoc(rows, api);
      FirstAppearancesSnoc(Canonicals(init, api), rows[|rows| - 1][api].value);
    }
  }

  lemma {:induction false} FirstAppearancesSnoc(xs: seq<string>, x: string)
    ensures FirstAppearances(xs + [x]) == if x in xs then FirstAppearances(xs) else FirstAppearances(xs) + [x]
  {
    assert (xs + [x])[..|xs|] == xs;
  }

  /** A canonical name holds the entry of its LAST row: a later row with
      the same `API` value overwrites an earlier one. */
  lemma {:induction false} TeamNamesLastRow(rows: seq<Row>, api: nat, i: nat)
    requires HasCanonical(rows, api) && i < |rows|
    requires forall j :: i < j < |rows| ==> rows[j][api] != rows[i][api]
    ensures rows[i][api].value in TeamNamesOf(rows, api).entries
    ensures TeamNamesOf(rows, api).entries[rows[i][api].value] == Entry(rows[i])
    ensures rows[i][api].value in Entry(rows[i])
    decreases |rows|
  {
    assert rows[i][api] in rows[i];
    if i < |rows| - 1 {
      var init := rows[..|rows| - 1];
      assert init[i] == rows[i];
      forall j | i < j < |init| ensures init[j][api] != init[i][api] {
        assert init[j] == rows[j];
      }
      TeamNamesLastRow(init, api, i);
    }
  }

  /** `convert_crosswalk_to_json`. */
  method ConvertCrosswalkToJson(rows: seq<Row>, api: nat) returns (teamNames: Dict<seq<string>>)
    requires HasCanonical(rows, api)
    ensures teamNames == TeamNamesOf(rows, api)
    ensures ValidDict(teamNames)
    ensures forall k :: k in teamNames.entries <==> k in Canonicals(rows, api)
  {
    teamNames := Dict([], map[]);
    for n := 0 to |rows|
      invariant teamNames == TeamNamesOf(rows[..n], api)
    {
      var canonical := rows[n][api].value;
      var variations := NonNull(rows[n]);
      assert rows[..n + 1][..n] == rows[..n];
      teamNames := Put(teamNames, canonical, SortedDistinct(variations));
    }
    assert rows[..|rows|] == rows;
    TeamNamesKeys(rows, api);
  }

  /** Some variation in `vs` lower-cases to `k`. */
  predicate Covers(vs: seq<string>, k: string) {
    exists i :: 0 <= i < |vs| && Lower(vs[i]) == k
  }

  /** `lookup` after `lookup[v.lower()] = canonical` for each `v` of `vs`. */
  function AddVariations(lookup: map<string, string>, vs: seq<string>, canonical: string): map<string, string>
  {
    if |vs| == 0 then lookup
    else AddVariations(lookup, vs[..|vs| - 1], canonical)[Lower(vs[|vs| - 1]) := canonical]
  }

  lemma {:induction false} AddVariationsAt(lookup: map<string, string>, vs: seq<string>, canonical: string, k: string)
    ensures var r := AddVariations(lookup, vs, canonical);
            && (k in r <==> k in lookup || Covers(vs, k))
            && (k in r ==> r[k] == if Covers(vs, k) then canonical else lookup[k])
    decreases |vs|
  {
    if |vs| > 0 {
      var init := vs[..|vs| - 1];
      AddVariationsAt(lookup, init, canonical, k);
      if Covers(vs, k) && Lower(vs[|vs| - 1]) != k {
        var i :| 0 <= i < |vs| && Lower(vs[i]) == k;
        assert init[i] == vs[i];
      }
      if Covers(init, k) {
        var i :| 0 <= i < |init| && Lower(init[i]) == k;
        assert vs[i] == init[i];
      }
    }
  }

  predicate Keyed<V>(d: Dict<V>) {
    forall i :: 0 <= i < |d.keys| ==> d.keys[i] in d.entries
  }

  /** `lookup` after the first `n` canonical names, in insertion order. */
  function LookupOf(d: Dict<seq<string>>, n: nat): map<string, string>
    requires Keyed(d) && n <= |d.keys|
  {
    if n == 0 then map[]
    else AddVariations(LookupOf(d, n - 1), d.entries[d.keys[n - 1]], d.keys[n - 1])
  }

  /** Some variation of the canonical name `d.keys[j]` lower-cases to `k`. */
  predicate Claims(d: Dict<seq<string>>, j: nat, k: string)
    requires Keyed(d) && j < |d.keys|
  {
    Covers(d.entries[d.keys[j]], k)
  }

  /** The lookup maps `k` to the LAST canonical name, in insertion order,
      that has a variation lower-casing to `k`; names earlier in the order
      are overwritten silently. */
  lemma {:induction false} LookupLastClaim(d: Dict<seq<string>>, n: nat, k: string, j: nat)
    requires Keyed(d) && j < n <= |d.keys|
    requires Claims(d, j, k)
    requires forall m :: j < m < n ==> !Claims(d, m, k)
    ensures k in LookupOf(d, n) && LookupOf(d, n)[k] == d.keys[j]
    decreases n
  {
    AddVariationsAt(LookupOf(d, n - 1), d.entries[d.keys[n - 1]], d.keys[n - 1], k);
    if j < n - 1 {
      assert !Claims(d, n - 1, k);
      LookupLastClaim(d, n - 1, k, j);
    }
  }

  /** Every lookup key is the lower-cased form of a variation of the
      canonical name it maps to, and no canonical name later in the order
      claims it. */
  lemma {:induction false} LookupSound(d: Dict<seq<string>>, n: nat, k: string) returns (j: nat)
    requires Keyed(d) && n <= |d.keys|
    requires k in LookupOf(d, n)
    ensures j < n && LookupOf(d, n)[k] == d.keys[j] && Claims(d, j, k)
    ensures forall m :: j < m < n ==> !Claims(d, m, k)
    decreases n
  {
    AddVariationsAt(LookupOf(d, n - 1), d.entries[d.keys[n - 1]], d.keys[n - 1], k);
    if Claims(d, n - 1, k) {
      j := n - 1;
    } else {
      j := LookupSound(d, n - 1, k);
    }
  }

  /** Every variation of every canonical name is in the lookup, lower-cased. */
  lemma {:induction false} LookupComplete(d: Dict<seq<string>>, n: nat, j: nat, v: string)
    requires Keyed(d) && j < n <= |d.keys|
    requires v in d.entries[d.keys[j]]
    ensures Lower(v) in LookupOf(d, n)
    decreases n
  {
    var last := d.entries[d.keys[n - 1]];
    AddVariationsAt(LookupOf(d, n - 1), last, d.keys[n - 1], Lower(v));
    assert LookupOf(d, n) == AddVariations(LookupOf(d, n - 1), last, d.keys[n - 1]);
    if j < n - 1 {
      LookupComplete(d, n - 1, j, v);
    } else {
      var i :| 0 <= i < |last| && last[i] == v;
      assert Lower(last[i]) == Lower(v);
    }
  }

  /** No two canonical names have variations that lower-case alike. */
  ghost predicate NoSharedVariation(d: Dict<seq<string>>)
    requires Keyed(d)
  {
    forall j, m, k :: 0 <= j < m < |d.keys| ==> !(Claims(d, j, k) && Claims(d, m, k))
  }

  /** Without shared variations, every variation resolves, whatever its
      case, to its own canonical name. */
  lemma {:induction false} LookupExact(d: Dict<seq<string>>, j: nat, v: string)
    requires Keyed(d) && j < |d.keys| && NoSharedVariation(d)
    requires v in d.entries[d.keys[j]]
    ensures Lower(v) in LookupOf(d, |d.keys|) && LookupOf(d, |d.keys|)[Lower(v)] == d.keys[j]
  {
    var vs := d.entries[d.keys[j]];
    var i :| 0 <= i < |vs| && vs[i] == v;
    assert Claims(d, j, Lower(vs[i]));
    forall m | j < m < |d.keys| ensures !Claims(d, m, Lower(v)) {
      assert !(Claims(d, j, Lower(v)) && Claims(d, m, Lower(v)));
    }
    LookupLastClaim(d, |d.keys|, Lower(v), j);
  }

  /** `create_lookup_dict`. */
  method CreateLookupDict(teamNames: Dict<seq<string>>) returns (lookup: map<string, string>)
    requires Keyed(teamNames)
    ensures lookup == LookupOf(teamNames, |teamNames.keys|)
  {
    lookup := map[];
    for n := 0 to |teamNames.keys|
      invariant lookup == LookupOf(teamNames, n)
    {
      var canonical := teamNames.keys[n];
      var variations := teamNames.entries[canonical];
      ghost var before := lookup;
      for i := 0 to |variations|
        invariant lookup == AddVariations(before, variations[..i], canonical)
      {
        assert variations[..i + 1][..i] == variations[..i];
        lookup := lookup[Lower(variations[i]) := canonical];
      }
      assert variations[..|variations|] == variations;
    }
  }

  /** End to end: a cell of the last row of its canonical name resolves,
      lower-cased, to that name when no two names share a variation. */
  lemma {:induction false} ResolveCell(rows: seq<Row>, api: nat, i: nat, v: string)
    requires HasCanonical(rows, api) && i < |rows|
    requires forall j :: i < j < |rows| ==> rows[j][api] != rows[i][api]
    requires Some(v) in rows[i]
    requires var d := TeamNamesOf(rows, api); ValidDict(d) && NoSharedVariation(d)
    ensures var d := TeamNamesOf(rows, api);
            Lower(v) in LookupOf(d, |d.keys|) && LookupOf(d, |d.keys|)[Lower(v)] == rows[i][api].value
  {
    var d := TeamNamesOf(rows, api);
    TeamNamesLastRow(rows, api, i);
    var c := rows[i][api].value;
    var j :| 0 <= j < |d.keys| && d.keys[j] == c;
    LookupExact(d, j, v);
  }
}
