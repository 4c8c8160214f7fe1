/** The end of step 5 and the start of step 6 of train_model.py: the
    one-hot encoding of the country, the split of the frame into the
    feature matrix X and the target y, and the whole preparation chain from
    the decoded API response to (X, y). */
module TrainingEncode {
  import opened PyValues
  import opened TextOrder
  import opened FeatureRows
  import opened TrainingRecords
  import opened TrainingClean
  import opened TrainingShift

  /** The distinct countries of the samples in ascending order: the
      categories `pd.get_dummies` makes columns for. */
  function Categories(samples: seq<Sample>): (cats: seq<string>)
    ensures StrictlySorted(cats)
    ensures forall c :: c in cats <==> exists i :: 0 <= i < |samples| && samples[i].country == c
  {
    if samples == [] then []
    else
      var n := |samples| - 1;
      assert forall i :: 0 <= i < n ==> samples[..n][i] == samples[i];
      InsertUnique(samples[n].country, Categories(samples[..n]))
  }

  /** The columns of the encoded frame: the remaining columns in their
      order, then the dummy columns. */
  function EncodedColumns(cats: seq<string>): seq<string>
  {
    ["Year", "GDP", "GDP_next_year", "GDP_lag_1", "GDP_lag_2", "GDP_lag_3"] + CountryColumns(cats)
  }

  /** One encoded row: the numeric cells, then True in the column of the
      row's own country and False in every other dummy column. */
  function EncodedRow(s: Sample, cats: seq<string>): FeatureRow
  {
    [("Year", Int(s.year)), ("GDP", Float(s.gdp)), ("GDP_next_year", Float(s.next)),
     ("GDP_lag_1", Float(s.lag1)), ("GDP_lag_2", Float(s.lag2)), ("GDP_lag_3", Float(s.lag3))]
    + DummyCells(s, cats)
  }

  /** A frame: its column names and its rows. */
  datatype Frame = Frame(columns: seq<string>, rows: seq<FeatureRow>)

  /** `pd.get_dummies(gdp_df, columns=['Country'], prefix='Country')`. */
  function OneHot(samples: seq<Sample>): (frame: Frame)
    ensures |frame.rows| == |samples|
  {
    var cats := Categories(samples);
    Frame(EncodedColumns(cats), seq(|samples|, i requires 0 <= i < |samples| => EncodedRow(samples[i], cats)))
  }

  lemma NumericColumnsAreNotCountryColumns()
    ensures forall k :: k in ["Year", "GDP", "GDP_next_year", "GDP_lag_1", "GDP_lag_2", "GDP_lag_3"]
                        ==> !IsCountryColumn(k)
  {
    SeedColumnsAreNotCountryColumns();
    assert "GDP"[0] == 'G' && "GDP_next_year"[0] == 'G' && CountryPrefix[0] == 'C';
  }

  /** Every encoded row has the frame's columns, and exactly one of its
      `Country_` cells is True: the one of the row's own country. */
  lemma OneHotExactlyOneTrue(samples: seq<Sample>, i: int)
    requires 0 <= i < |samples|
    ensures var frame := OneHot(samples);
      && Columns(frame.rows[i]) == frame.columns
      && |TrueCountryIndices(frame.rows[i])| == 1
      && forall k :: k in TrueCountryIndices(frame.rows[i]) ==>
           frame.rows[i][k].0 == CountryColumn(samples[i].country)
  {
    var cats := Categories(samples);
    var row := OneHot(samples).rows[i];
    var c := samples[i].country;
    assert c in cats;
    var m :| 0 <= m < |cats| && cats[m] == c;
    NumericColumnsAreNotCountryColumns();
    assert row[6 + m] == (CountryColumn(c), Bool(true));
    assert TrueCountryIndices(row) == {6 + m} by {
      forall k | k in TrueCountryIndices(row)
        ensures k == 6 + m
      {
        assert 6 <= k;
        assert cats[k - 6] == c;
        if k - 6 != m {
          StrictlySortedDistinct(cats, k - 6, m);
        }
      }
    }
    assert Columns(row) == EncodedColumns(cats);
  }

  // ---------------------------------------------------------------------
  // X and y

  /** `row` without the cells of the columns in `names`. */
  function DropColumns(row: FeatureRow, names: set<string>): (r: FeatureRow)
    ensures |r| <= |row|
    ensures forall k :: 0 <= k < |r| ==> r[k].0 !in names
  {
    if row == [] then []
    else
      var n := |row| - 1;
      DropColumns(row[..n], names) + (if row[n].0 in names then [] else [row[n]])
  }

  lemma {:induction false} DropColumnsAppend(a: FeatureRow, b: FeatureRow, names: set<string>)
    ensures DropColumns(a + b, names) == DropColumns(a, names) + DropColumns(b, names)
  {
    if b == [] {
      assert a + b == a;
    } else {
      var n := |b| - 1;
      assert (a + b)[..|a + b| - 1] == a + b[..n];
      DropColumnsAppend(a, b[..n], names);
    }
  }

  lemma {:induction false} DropColumnsKeeps(row: FeatureRow, names: set<string>)
    requires forall k :: 0 <= k < |row| ==> row[k].0 !in names
    ensures DropColumns(row, names) == row
  {
    if row != [] {
      DropColumnsKeeps(row[..|row| - 1], names);
    }
  }

  lemma DropColumnsKeepsCell(cell: (string, Value), names: set<string>)
    requires cell.0 !in names
    ensures DropColumns([cell], names) == [cell]
  {
    assert [cell][..0] == [];
  }

  lemma DropColumnsDropsCell(cell: (string, Value), names: set<string>)
    requires cell.0 in names
    ensures DropColumns([cell], names) == []
  {
    assert [cell][..0] == [];
  }

  /** The names of `cols` not in `names`, in order. */
  function DropNames(cols: seq<string>, names: set<string>): (r: seq<string>)
    ensures |r| <= |cols|
    ensures forall k :: 0 <= k < |r| ==> r[k] !in names && r[k] in cols
  {
    if cols == [] then []
    else
      var n := |cols| - 1;
      var init := DropNames(cols[..n], names);
      assert forall k :: 0 <= k < |init| ==> init[k] in cols;
      init + (if cols[n] in names then [] else [cols[n]])
  }

  lemma {:induction false} ColumnsOfDropped(row: FeatureRow, names: set<string>)
    ensures Columns(DropColumns(row, names)) == DropNames(Columns(row), names)
  {
    if row != [] {
      var n := |row| - 1;
      assert Columns(row)[..n] == Columns(row[..n]);
      ColumnsOfDropped(row[..n], names);
    }
  }

  /** The columns left out of X. */
  const TargetColumns: set<string> := {"GDP", "GDP_next_year"}

  /** The value of the first cell named `col`, None when there is none. */
  function Lookup(row: FeatureRow, col: string): (v: Option<Value>)
    ensures v.Some? <==> col in Columns(row)
    ensures v.Some? ==> exists k :: 0 <= k < |row| && row[k] == (col, v.value)
  {
    if row == [] then None
    else if row[0].0 == col then Some(row[0].1)
    else
      assert Columns(row) == [row[0].0] + Columns(row[1..]);
      var v := Lookup(row[1..], col);
      if v.Some? then
        var k :| 0 <= k < |row[1..]| && row[1..][k] == (col, v.value);
        assert row[k + 1] == (col, v.value);
        v
      else v
  }

  /** `gdp_df.drop(columns=['GDP', 'GDP_next_year'])` and
      `gdp_df['GDP_next_year']`. */
  function SplitFeaturesTarget(frame: Frame): (xy: (Frame, seq<Option<Value>>))
    ensures |xy.0.rows| == |xy.1| == |frame.rows|
  {
    (Frame(DropNames(frame.columns, TargetColumns),
           seq(|frame.rows|, i requires 0 <= i < |frame.rows| => DropColumns(frame.rows[i], TargetColumns))),
     seq(|frame.rows|, i requires 0 <= i < |frame.rows| => Lookup(frame.rows[i], "GDP_next_year")))
  }

  /** The dummy cells of an encoded row. */
  function DummyCells(s: Sample, cats: seq<string>): FeatureRow
  {
    seq(|cats|, k requires 0 <= k < |cats| => (CountryColumn(cats[k]), Bool(cats[k] == s.country)))
  }

  /** The cells of a feature row of X: the year, the three lags as floats,
      then the dummy cells. */
  function FeatureCells(s: Sample, cats: seq<string>): FeatureRow
  {
    [("Year", Int(s.year)), ("GDP_lag_1", Float(s.lag1)), ("GDP_lag_2", Float(s.lag2)),
     ("GDP_lag_3", Float(s.lag3))] + DummyCells(s, cats)
  }

  lemma DummiesKept(s: Sample, cats: seq<string>)
    ensures DropColumns(DummyCells(s, cats), TargetColumns) == DummyCells(s, cats)
  {
    var dummies := DummyCells(s, cats);
    forall k | 0 <= k < |dummies|
      ensures dummies[k].0 !in TargetColumns
    {
      assert IsCountryColumn(dummies[k].0);
      NumericColumnsAreNotCountryColumns();
    }
    DropColumnsKeeps(dummies, TargetColumns);
  }

  /** The numeric cells of an encoded row. */
  function NumericCells(s: Sample): FeatureRow
  {
    [("Year", Int(s.year)), ("GDP", Float(s.gdp)), ("GDP_next_year", Float(s.next)),
     ("GDP_lag_1", Float(s.lag1)), ("GDP_lag_2", Float(s.lag2)), ("GDP_lag_3", Float(s.lag3))]
  }

  lemma TargetColumnNames()
    ensures "GDP" in TargetColumns && "GDP_next_year" in TargetColumns
    ensures "Year" !in TargetColumns && "GDP_lag_1" !in TargetColumns
    ensures "GDP_lag_2" !in TargetColumns && "GDP_lag_3" !in TargetColumns
  {
    assert "Year"[0] != "GDP"[0] && "Year"[0] != "GDP_next_year"[0];
    assert |"GDP_lag_1"| != |"GDP"| && "GDP_lag_1"[4] != "GDP_next_year"[4];
    assert |"GDP_lag_2"| != |"GDP"| && "GDP_lag_2"[4] != "GDP_next_year"[4];
    assert |"GDP_lag_3"| != |"GDP"| && "GDP_lag_3"[4] != "GDP_next_year"[4];
  }

  /** Dropping columns from six cells, one cell at a time. */
  lemma DropColumnsEach(c0: (string, Value), c1: (string, Value), c2: (string, Value),
                        c3: (string, Value), c4: (string, Value), c5: (string, Value), names: set<string>)
    ensures DropColumns([c0, c1, c2, c3, c4, c5], names)
            == DropColumns([c0], names) + DropColumns([c1], names) + DropColumns([c2], names)
               + DropColumns([c3], names) + DropColumns([c4], names) + DropColumns([c5], names)
  {
    assert [c0, c1, c2, c3, c4, c5] == [c0, c1, c2, c3, c4] + [c5];
    DropColumnsAppend([c0, c1, c2, c3, c4], [c5], names);
    assert [c0, c1, c2, c3, c4] == [c0, c1, c2, c3] + [c4];
    DropColumnsAppend([c0, c1, c2, c3], [c4], names);
    assert [c0, c1, c2, c3] == [c0, c1, c2] + [c3];
    DropColumnsAppend([c0, c1, c2], [c3], names);
    assert [c0, c1, c2] == [c0, c1] + [c2];
    DropColumnsAppend([c0, c1], [c2], names);
    assert [c0, c1] == [c0] + [c1];
    DropColumnsAppend([c0], [c1], names);
  }

  lemma NumericFeatures(s: Sample)
    ensures DropColumns(NumericCells(s), TargetColumns)
            == [("Year", Int(s.year)), ("GDP_lag_1", Float(s.lag1)), ("GDP_lag_2", Float(s.lag2)),
                ("GDP_lag_3", Float(s.lag3))]
  {
    var c0: (string, Value) := ("Year", Int(s.year));
    var c1: (string, Value) := ("GDP", Float(s.gdp));
    var c2: (string, Value) := ("GDP_next_year", Float(s.next));
    var c3: (string, Value) := ("GDP_lag_1", Float(s.lag1));
    var c4: (string, Value) := ("GDP_lag_2", Float(s.lag2));
    var c5: (string, Value) := ("GDP_lag_3", Float(s.lag3));
    DropColumnsEach(c0, c1, c2, c3, c4, c5, TargetColumns);
    TargetColumnNames();
    DropColumnsKeepsCell(c0, TargetColumns);
    DropColumnsDropsCell(c1, TargetColumns);
    DropColumnsDropsCell(c2, TargetColumns);
    DropColumnsKeepsCell(c3, TargetColumns);
    DropColumnsKeepsCell(c4, TargetColumns);
    DropColumnsKeepsCell(c5, TargetColumns);
    assert [c0] + [] + [] + [c3] + [c4] + [c5] == [c0, c3, c4, c5];
  }

  /** Dropping the target columns from an encoded row leaves its feature
      cells, and its `GDP_next_year` cell holds the sample's target. */
  lemma EncodedFeatures(s: Sample, cats: seq<string>)
    ensures DropColumns(EncodedRow(s, cats), TargetColumns) == FeatureCells(s, cats)
    ensures Lookup(EncodedRow(s, cats), "GDP_next_year") == Some(Float(s.next))
  {
    EncodedFeaturesDrop(s, cats);
    EncodedTarget(s, cats);
  }

  lemma EncodedFeaturesDrop(s: Sample, cats: seq<string>)
    ensures DropColumns(EncodedRow(s, cats), TargetColumns) == FeatureCells(s, cats)
  {
    DropColumnsAppend(NumericCells(s), DummyCells(s, cats), TargetColumns);
    NumericFeatures(s);
    DummiesKept(s, cats);
  }

  lemma EncodedTarget(s: Sample, cats: seq<string>)
    ensures Lookup(EncodedRow(s, cats), "GDP_next_year") == Some(Float(s.next))
  {
    var row := EncodedRow(s, cats);
    var col := "GDP_next_year";
    assert "Year"[0] != col[0] && |"GDP"| != |col|;
    assert row[0].0 == "Year";
    assert Lookup(row, col) == Lookup(row[1..], col);
    assert row[1..][0].0 == "GDP";
    assert Lookup(row[1..], col) == Lookup(row[1..][1..], col);
    assert row[1..][1..][0] == (col, Float(s.next));
  }

  lemma ColumnsOfCells(s: Sample, cats: seq<string>)
    ensures Columns(EncodedRow(s, cats)) == EncodedColumns(cats)
    ensures Columns(FeatureCells(s, cats)) == FeatureColumns(cats)
  {
    assert Columns(DummyCells(s, cats)) == CountryColumns(cats);
    ColumnsAppend(NumericCells(s), DummyCells(s, cats));
    assert EncodedRow(s, cats) == NumericCells(s) + DummyCells(s, cats);
    var head: FeatureRow := [("Year", Int(s.year)), ("GDP_lag_1", Float(s.lag1)), ("GDP_lag_2", Float(s.lag2)),
                             ("GDP_lag_3", Float(s.lag3))];
    ColumnsAppend(head, DummyCells(s, cats));
    assert Columns(head) == SeedColumns;
  }

  lemma ColumnsAppend(a: FeatureRow, b: FeatureRow)
    ensures Columns(a + b) == Columns(a) + Columns(b)
  {
  }

  /** Dropping the target names from the encoded columns leaves the
      feature columns. */
  lemma FeatureColumnsOfEncoded(cats: seq<string>)
    ensures DropNames(EncodedColumns(cats), TargetColumns) == FeatureColumns(cats)
  {
    var any := Sample("", 0, 0.0, 0.0, 0.0, 0.0, 0.0);
    ColumnsOfCells(any, cats);
    ColumnsOfDropped(EncodedRow(any, cats), TargetColumns);
    EncodedFeatures(any, cats);
  }

  /** The columns of X are "Year", the lags and the dummy columns, each row
      of X holds the sample's year, lags and dummies, and y is the target of
      each sample. */
  lemma SplitColumns(samples: seq<Sample>)
    ensures var cats := Categories(samples);
      var xy := SplitFeaturesTarget(OneHot(samples));
      && xy.0.columns == FeatureColumns(cats)
      && (forall i :: 0 <= i < |samples| ==> xy.0.rows[i] == FeatureCells(samples[i], cats))
      && (forall i :: 0 <= i < |samples| ==> xy.1[i] == Some(Float(samples[i].next)))
  {
    var cats := Categories(samples);
    var frame := OneHot(samples);
    FeatureColumnsOfEncoded(cats);
    forall i | 0 <= i < |samples|
      ensures SplitFeaturesTarget(frame).0.rows[i] == FeatureCells(samples[i], cats)
      ensures SplitFeaturesTarget(frame).1[i] == Some(Float(samples[i].next))
    {
      EncodedFeatures(samples[i], cats);
    }
  }

  // ---------------------------------------------------------------------
  // The whole preparation

  /** What the script has once the data is prepared: nothing to train on,
      a frame outside the typed model (see AsRecords), or the categories, X
      and y. */
  datatype TrainingData =
    | NoData
    | Unsupported
    | Prepared(categories: seq<string>, features: Frame, target: seq<Option<Value>>)

  /** The samples left after sorting, filling, dropping and shifting. */
  function Samples(records: seq<Record>): seq<Sample>
  {
    DropIncomplete(ShiftColumns(CleanRecords(SortRecords(records))))
  }

  /** Steps 3 to 6 up to the split: "Cannot proceed" when the frame is
      empty, a raised exception when `len()` rejects `gdp_data` or a record
      does not parse. */
  function PrepareTrainingData(fetched: Fetched): (r: Result<TrainingData>)
    ensures r == Ok(NoData) <==> SelectPayload(fetched).Ok? && !Truthy(SelectPayload(fetched).value)
    ensures SelectPayload(fetched).Err? ==> r == Err(SelectPayload(fetched).error)
  {
    match LoadRows(fetched)
    case Err(e) => Err(e)
    case Ok(parsed) =>
      if parsed == [] then Ok(NoData)
      else
        match AsRecords(parsed)
        case None => Ok(Unsupported)
        case Some(records) =>
          var samples := Samples(records);
          var xy := SplitFeaturesTarget(OneHot(samples));
          Ok(Prepared(Categories(samples), xy.0, xy.1))
  }

  /** A World Bank answer with no data, `[meta, null]`, stops the script
      with the TypeError of `len(None)` instead of reaching "Cannot proceed". */
  lemma EmptyQueryRaises(meta: Value)
    ensures PrepareTrainingData(Some([meta, Null]))
            == Err(OtherError("object of type 'NoneType' has no len()"))
  {
  }

  /** A prepared result has one feature row and one target per sample, the
      feature columns are fixed by the categories, and every category is a
      country of a sample. */
  lemma PreparedShape(fetched: Fetched)
    requires PrepareTrainingData(fetched).Ok? && PrepareTrainingData(fetched).value.Prepared?
    ensures var data := PrepareTrainingData(fetched).value;
      && StrictlySorted(data.categories)
      && data.features.columns == FeatureColumns(data.categories)
      && |data.features.rows| == |data.target|
      && (forall i :: 0 <= i < |data.features.rows| ==> Columns(data.features.rows[i]) == data.features.columns)
      && (forall i :: 0 <= i < |data.target| ==> data.target[i].Some? && data.target[i].value.Float?)
  {
    var parsed := LoadRows(fetched).value;
    var records := AsRecords(parsed).value;
    var samples := Samples(records);
    SplitColumns(samples);
    forall i | 0 <= i < |samples|
      ensures Columns(FeatureCells(samples[i], Categories(samples))) == FeatureColumns(Categories(samples))
    {
      ColumnsOfCells(samples[i], Categories(samples));
    }
  }
}
