/** The second half of step 5 of train_model.py: the target and lag
    columns made by positional shifts within each country, and the removal
    of the rows where one of them is missing. */
module TrainingShift {
  import opened PyValues
  import opened TrainingClean

  /** The GDP values of country `c`, in row order: the column
      `groupby('Country')['GDP']` sees for that group. */
  function History(obs: seq<Observation>, c: string): seq<real>
  {
    if obs == [] then []
    else
      var last := obs[|obs| - 1];
      History(obs[..|obs| - 1], c) + (if last.country == c then [last.gdp] else [])
  }

  lemma {:induction false} HistoryAppend(a: seq<Observation>, b: seq<Observation>, c: string)
    ensures History(a + b, c) == History(a, c) + History(b, c)
  {
    if b == [] {
      assert a + b == a;
    } else {
      var n := |b| - 1;
      assert (a + b)[..|a + b| - 1] == a + b[..n];
      HistoryAppend(a, b[..n], c);
    }
  }

  lemma {:induction false} HistoryOfOtherCountries(obs: seq<Observation>, c: string)
    requires forall k :: 0 <= k < |obs| ==> obs[k].country != c
    ensures History(obs, c) == []
  {
    if obs != [] {
      HistoryOfOtherCountries(obs[..|obs| - 1], c);
    }
  }

  /** A row with its target and lag columns; a shift past the edge of its
      country's group is None (NaN). */
  datatype Shifted = Shifted(country: string, year: int, gdp: real,
                             next: Option<real>, lag1: Option<real>, lag2: Option<real>, lag3: Option<real>)

  /** The number of rows of country `c`. */
  function RowsOf(obs: seq<Observation>, c: string): nat
  {
    if obs == [] then 0
    else RowsOf(obs[..|obs| - 1], c) + (if obs[|obs| - 1].country == c then 1 else 0)
  }

  lemma {:induction false} HistoryLength(obs: seq<Observation>, c: string)
    ensures |History(obs, c)| == RowsOf(obs, c)
  {
    if obs != [] {
      HistoryLength(obs[..|obs| - 1], c);
    }
  }

  /** The indices of the rows before row `i` that belong to its country. */
  function SameCountryBefore(obs: seq<Observation>, i: int): set<int>
    requires 0 <= i < |obs|
  {
    set j | 0 <= j < i && obs[j].country == obs[i].country
  }

  /** The indices of the rows after row `i` that belong to its country. */
  function SameCountryAfter(obs: seq<Observation>, i: int): set<int>
    requires 0 <= i < |obs|
  {
    set j | i < j < |obs| && obs[j].country == obs[i].country
  }

  /** The group column of `c` over rows `lo` to `hi` has one entry per row
      of `c` there. */
  lemma {:induction false} HistoryCountsRows(obs: seq<Observation>, lo: int, hi: int, c: string)
    requires 0 <= lo <= hi <= |obs|
    ensures |History(obs[lo..hi], c)| == |set j | lo <= j < hi && obs[j].country == c|
  {
    if hi > lo {
      var m := hi - 1;
      HistoryCountsRows(obs, lo, m, c);
      assert obs[lo..hi][..|obs[lo..hi]| - 1] == obs[lo..m];
      var before := set j | lo <= j < m && obs[j].country == c;
      var now := set j | lo <= j < hi && obs[j].country == c;
      if obs[m].country == c {
        assert now == before + {m};
      } else {
        assert now == before;
      }
    }
  }

  /** `groupby('Country')['GDP'].shift(k)` at row `i`: the GDP of the k-th
      previous row of the same country. */
  function Lag(obs: seq<Observation>, i: int, k: nat): (lag: Option<real>)
    requires 0 <= i < |obs| && k >= 1
    ensures lag.None? <==> RowsOf(obs[..i], obs[i].country) < k
  {
    HistoryLength(obs[..i], obs[i].country);
    var before := History(obs[..i], obs[i].country);
    if |before| >= k then Some(before[|before| - k]) else None
  }

  /** `groupby('Country')['GDP'].shift(-1)` at row `i`: the GDP of the next
      row of the same country. */
  function Lead(obs: seq<Observation>, i: int): (lead: Option<real>)
    requires 0 <= i < |obs|
    ensures lead.None? <==> RowsOf(obs[i + 1..], obs[i].country) == 0
  {
    HistoryLength(obs[i + 1..], obs[i].country);
    var after := History(obs[i + 1..], obs[i].country);
    if after != [] then Some(after[0]) else None
  }

  /** The frame with `GDP_next_year` and `GDP_lag_1` .. `GDP_lag_3` added;
      each row keeps its observation. */
  function ShiftColumns(obs: seq<Observation>): (rows: seq<Shifted>)
    ensures |rows| == |obs|
    ensures forall i :: 0 <= i < |rows| ==>
      rows[i].country == obs[i].country && rows[i].year == obs[i].year && rows[i].gdp == obs[i].gdp
  {
    seq(|obs|, i requires 0 <= i < |obs| =>
      Shifted(obs[i].country, obs[i].year, obs[i].gdp, Lead(obs, i), Lag(obs, i, 1), Lag(obs, i, 2), Lag(obs, i, 3)))
  }

  /** The target of a row is missing exactly at the last row of its
      country, and its k-th lag exactly at the first k rows. */
  lemma ShiftColumnsEdges(obs: seq<Observation>, i: int)
    requires 0 <= i < |obs|
    ensures var row := ShiftColumns(obs)[i];
      && (row.next.None? <==> SameCountryAfter(obs, i) == {})
      && (row.lag1.None? <==> SameCountryBefore(obs, i) == {})
      && (row.lag2.None? <==> |SameCountryBefore(obs, i)| < 2)
      && (row.lag3.None? <==> |SameCountryBefore(obs, i)| < 3)
  {
    var c := obs[i].country;
    HistoryLength(obs[..i], c);
    HistoryLength(obs[i + 1..], c);
    HistoryCountsRows(obs, 0, i, c);
    assert obs[0..i] == obs[..i];
    HistoryCountsRows(obs, i + 1, |obs|, c);
    assert obs[i + 1..|obs|] == obs[i + 1..];
    assert SameCountryAfter(obs, i) == set j | i + 1 <= j < |obs| && obs[j].country == c;
  }

  /** For two consecutive rows of one country, the first row's target is the
      second row's GDP, and the second row's lags are the first row's GDP
      followed by the first row's lags. */
  lemma ConsecutiveRowsAgree(obs: seq<Observation>, i: int, j: int)
    requires 0 <= i < j < |obs| && obs[i].country == obs[j].country
    requires forall k :: i < k < j ==> obs[k].country != obs[i].country
    ensures ShiftColumns(obs)[i].next == Some(obs[j].gdp)
    ensures ShiftColumns(obs)[j].lag1 == Some(obs[i].gdp)
    ensures ShiftColumns(obs)[j].lag2 == ShiftColumns(obs)[i].lag1
    ensures ShiftColumns(obs)[j].lag3 == ShiftColumns(obs)[i].lag2
  {
    var c := obs[i].country;
    var between := obs[i + 1..j];
    HistoryOfOtherCountries(between, c);
    assert obs[i + 1..] == between + [obs[j]] + obs[j + 1..];
    HistoryAppend(between + [obs[j]], obs[j + 1..], c);
    HistoryAppend(between, [obs[j]], c);
    assert History([obs[j]], c) == [obs[j].gdp] by {
      assert [obs[j]][..0] == [];
    }
    assert obs[..j] == obs[..i] + [obs[i]] + between;
    HistoryAppend(obs[..i] + [obs[i]], between, c);
    HistoryAppend(obs[..i], [obs[i]], c);
    assert History([obs[i]], c) == [obs[i].gdp] by {
      assert [obs[i]][..0] == [];
    }
  }

  /** A row whose target and three lags are all present. */
  datatype Sample = Sample(country: string, year: int, gdp: real,
                           next: real, lag1: real, lag2: real, lag3: real)

  predicate Complete(row: Shifted)
  {
    row.next.Some? && row.lag1.Some? && row.lag2.Some? && row.lag3.Some?
  }

  function AsSample(row: Shifted): Sample
    requires Complete(row)
  {
    Sample(row.country, row.year, row.gdp, row.next.value, row.lag1.value, row.lag2.value, row.lag3.value)
  }

  /** `dropna(subset=['GDP_next_year', 'GDP_lag_1', 'GDP_lag_2', 'GDP_lag_3'])`. */
  function DropIncomplete(rows: seq<Shifted>): (samples: seq<Sample>)
    ensures |samples| <= |rows|
    ensures forall s :: s in samples <==> exists i :: 0 <= i < |rows| && Complete(rows[i]) && AsSample(rows[i]) == s
  {
    if rows == [] then []
    else
      var n := |rows| - 1;
      var init := DropIncomplete(rows[..n]);
      assert forall i :: 0 <= i < n ==> rows[..n][i] == rows[i];
      if Complete(rows[n]) then init + [AsSample(rows[n])] else init
  }

  /** `dropna` is a filter: the rows of a concatenation are dropped part by
      part, and the kept samples stay in their order. */
  lemma {:induction false} DropIncompleteAppend(a: seq<Shifted>, b: seq<Shifted>)
    ensures DropIncomplete(a + b) == DropIncomplete(a) + DropIncomplete(b)
  {
    if b == [] {
      assert a + b == a;
    } else {
      var n := |b| - 1;
      assert (a + b)[..|a + b| - 1] == a + b[..n];
      DropIncompleteAppend(a, b[..n]);
    }
  }

  /** A single row is kept, as its sample, exactly when it is complete. */
  lemma DropIncompleteSingle(row: Shifted)
    ensures DropIncomplete([row]) == if Complete(row) then [AsSample(row)] else []
  {
    assert [row][..0] == [];
  }

  /** The number of samples of country `c`. */
  function CountOf(samples: seq<Sample>, c: string): nat
  {
    if samples == [] then 0
    else CountOf(samples[..|samples| - 1], c) + (if samples[|samples| - 1].country == c then 1 else 0)
  }

  /** How many of the first `g` rows of a group of `n` rows are complete:
      the ones with three rows before them and one after. */
  function CompleteAmong(g: int, n: int): int
  {
    var upTo := if g < n - 1 then g else n - 1;
    if upTo - 3 > 0 then upTo - 3 else 0
  }

  /** One more row adds a sample of `c` exactly when it is complete and of
      country `c`. */
  lemma CountOfDropStep(rows: seq<Shifted>, m: nat, c: string)
    requires 0 < m <= |rows|
    ensures CountOf(DropIncomplete(rows[..m]), c)
            == CountOf(DropIncomplete(rows[..m - 1]), c)
               + (if Complete(rows[m - 1]) && rows[m - 1].country == c then 1 else 0)
  {
    var p := m - 1;
    assert rows[..m][..p] == rows[..p];
    var samples := DropIncomplete(rows[..p]);
    var samples' := DropIncomplete(rows[..m]);
    if Complete(rows[p]) {
      assert samples' == samples + [AsSample(rows[p])];
      assert samples'[..|samples'| - 1] == samples;
    }
  }

  /** A row of country `c` is complete exactly when `c` has at least three
      rows before it and at least one after it. */
  lemma ShiftedRowComplete(obs: seq<Observation>, p: int)
    requires 0 <= p < |obs|
    ensures Complete(ShiftColumns(obs)[p]) <==>
      |History(obs[..p], obs[p].country)| >= 3 && |History(obs[p + 1..], obs[p].country)| >= 1
  {
  }

  /** Counting one more row of a group of `n`, with `after` rows of the
      group still to come. */
  lemma CompleteAmongStep(g: nat, n: nat, after: nat)
    requires n == g + 1 + after
    ensures CompleteAmong(g + 1, n) == CompleteAmong(g, n) + (if g >= 3 && after >= 1 then 1 else 0)
  {
  }

  lemma HistoryLengthStep(obs: seq<Observation>, p: int, c: string)
    requires 0 <= p < |obs|
    ensures |History(obs[..p + 1], c)| == |History(obs[..p], c)| + (if obs[p].country == c then 1 else 0)
  {
    assert obs[..p + 1][..p] == obs[..p];
  }

  lemma HistoryLengthSplit(obs: seq<Observation>, m: int, c: string)
    requires 0 <= m <= |obs|
    ensures |History(obs, c)| == |History(obs[..m], c)| + |History(obs[m..], c)|
  {
    assert obs == obs[..m] + obs[m..];
    HistoryAppend(obs[..m], obs[m..], c);
  }

  /** Counting the samples of `c` among the first `m` rows of any frame
      whose rows carry the observations' countries and are complete where
      the shifted frame's are. */
  lemma {:induction false} CountCompletePrefix(obs: seq<Observation>, rows: seq<Shifted>, c: string, m: nat)
    requires |rows| == |obs| && m <= |obs|
    requires forall p :: 0 <= p < |obs| ==> rows[p].country == obs[p].country
    requires forall p :: 0 <= p < |obs| && obs[p].country == c ==>
      (Complete(rows[p]) <==> |History(obs[..p], c)| >= 3 && |History(obs[p + 1..], c)| >= 1)
    ensures CountOf(DropIncomplete(rows[..m]), c)
            == CompleteAmong(|History(obs[..m], c)|, |History(obs, c)|)
  {
    if m > 0 {
      var p := m - 1;
      CountCompletePrefix(obs, rows, c, p);
      CountOfDropStep(rows, m, c);
      HistoryLengthStep(obs, p, c);
      if obs[p].country == c {
        HistoryLengthSplit(obs, m, c);
        CompleteAmongStep(|History(obs[..p], c)|, |History(obs, c)|, |History(obs[m..], c)|);
      }
    }
  }

  /** A country with n rows before the shift keeps max(n - 4, 0) rows: its
      first three (no full set of lags) and its last (no target) go. */
  lemma SamplesPerCountry(obs: seq<Observation>, c: string)
    ensures var n := |History(obs, c)|;
      CountOf(DropIncomplete(ShiftColumns(obs)), c) == if n > 4 then n - 4 else 0
  {
    var rows := ShiftColumns(obs);
    forall p | 0 <= p < |obs| && obs[p].country == c
      ensures Complete(rows[p]) <==> |History(obs[..p], c)| >= 3 && |History(obs[p + 1..], c)| >= 1
    {
      ShiftedRowComplete(obs, p);
    }
    CountCompletePrefix(obs, rows, c, |obs|);
    assert obs[..|obs|] == obs;
    assert rows[..|obs|] == rows;
  }

}
