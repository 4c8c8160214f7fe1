/** The prediction side of the GDP regressor (ml_prediction/predict_gdp.py):
    a single feature row is rebuilt from a country name, a year and three lag
    values, aligned to the ordered list of training columns, and handed to
    the regressor loaded from the model file. */
module FeatureRows {
  import opened PyValues
  import opened TextOrder

  /** A one-row DataFrame: its columns in order, each with its cell. */
  type FeatureRow = seq<(string, Value)>

  /** The regressor loaded from the model file, applied to a one-row frame:
      it returns its array of predictions, or raises. Its internals (a
      random forest) are not modelled. */
  type Regressor = FeatureRow -> Result<seq<real>>

  const CountryPrefix: string := "Country_"
  const ModelPath: string := "ml_prediction/gdp_prediction_model.pkl"
  const ModelMissingMessage: string :=
    "Error: Model file not found at " + ModelPath
    + ". Make sure 'gdp_prediction_model.pkl' is inside the 'ml_prediction' folder."
  /** What numpy says when index 0 of an empty prediction array is read. */
  const EmptyPredictionMessage: string := "index 0 is out of bounds for axis 0 with size 0"

  /** The keys `prediction_data` is seeded with, in insertion order. */
  const SeedColumns: seq<string> := ["Year", "GDP_lag_1", "GDP_lag_2", "GDP_lag_3"]

  /** `col.startswith('Country_')`. */
  predicate IsCountryColumn(col: string)
  {
    |CountryPrefix| <= |col| && col[..|CountryPrefix|] == CountryPrefix
  }

  /** `f'Country_{country_name}'`: the one-hot column of a country. */
  function CountryColumn(country: string): (col: string)
    ensures IsCountryColumn(col)
    ensures col[|CountryPrefix|..] == country
  {
    CountryPrefix + country
  }

  function UnknownCountryMessage(country: string): string
  {
    "Country '" + country + "' was not present in the training data."
  }

  lemma SeedColumnsAreNotCountryColumns()
    ensures forall k :: k in SeedColumns ==> !IsCountryColumn(k)
  {
    assert "GDP_lag_1"[0] == 'G' && "GDP_lag_2"[0] == 'G' && "GDP_lag_3"[0] == 'G';
    assert CountryPrefix[0] == 'C';
  }

  /** The column names of a row, in order. */
  function Columns(row: FeatureRow): (cols: seq<string>)
    ensures |cols| == |row|
    ensures forall i :: 0 <= i < |row| ==> cols[i] == row[i].0
  {
    seq(|row|, i requires 0 <= i < |row| => row[i].0)
  }

  predicate Distinct(s: seq<string>)
  {
    forall i, j :: 0 <= i < j < |s| ==> s[i] != s[j]
  }

  lemma CountryColumnInjective(a: string, b: string)
    requires CountryColumn(a) == CountryColumn(b)
    ensures a == b
  {
    assert CountryColumn(a)[|CountryPrefix|..] == a;
  }

  /** One `Country_<name>` column per category. */
  function CountryColumns(cats: seq<string>): (cols: seq<string>)
    ensures |cols| == |cats|
    ensures forall k :: 0 <= k < |cats| ==> IsCountryColumn(cols[k]) && cols[k][|CountryPrefix|..] == cats[k]
  {
    seq(|cats|, k requires 0 <= k < |cats| => CountryColumn(cats[k]))
  }

  /** The feature columns: "Year", the three lags, then one `Country_`
      column per category. */
  function FeatureColumns(cats: seq<string>): seq<string>
  {
    SeedColumns + CountryColumns(cats)
  }

  /** The layout of a feature column list over strictly ascending country
      names: the four seed columns, then each country's column in order, no
      name twice, and a country's column present exactly when the country
      is listed. */
  lemma FeatureColumnsLayout(cats: seq<string>)
    requires StrictlySorted(cats)
    ensures |FeatureColumns(cats)| == 4 + |cats|
    ensures FeatureColumns(cats)[..4] == SeedColumns
    ensures forall i :: 0 <= i < |cats| ==> FeatureColumns(cats)[4 + i] == CountryColumn(cats[i])
    ensures Distinct(FeatureColumns(cats))
    ensures forall c :: CountryColumn(c) in FeatureColumns(cats) <==> c in cats
  {
    FeatureColumnsDistinct(cats);
    forall c
      ensures CountryColumn(c) in FeatureColumns(cats) <==> c in cats
    {
      FeatureColumnsHaveCountry(cats, c);
    }
  }

  lemma FeatureColumnsDistinct(cats: seq<string>)
    requires StrictlySorted(cats)
    ensures Distinct(FeatureColumns(cats))
  {
    SeedColumnsAreNotCountryColumns();
    var cols := FeatureColumns(cats);
    forall i, j | 0 <= i < j < |cols|
      ensures cols[i] != cols[j]
    {
      if 4 <= i {
        StrictlySortedDistinct(cats, i - 4, j - 4);
        assert cols[i][|CountryPrefix|..] == cats[i - 4];
        assert cols[j][|CountryPrefix|..] == cats[j - 4];
      } else if 4 <= j {
        assert cols[i] == SeedColumns[i];
        assert IsCountryColumn(cols[j]);
      } else {
        assert cols[i] == SeedColumns[i] && cols[j] == SeedColumns[j];
      }
    }
  }

  lemma FeatureColumnsHaveCountry(cats: seq<string>, c: string)
    ensures CountryColumn(c) in FeatureColumns(cats) <==> c in cats
  {
    var cols := FeatureColumns(cats);
    if CountryColumn(c) in cols {
      var k :| 0 <= k < |cols| && cols[k] == CountryColumn(c);
      SeedColumnsAreNotCountryColumns();
      assert 4 <= k;
      assert CountryColumn(c)[|CountryPrefix|..] == cats[k - 4];
    }
    if c in cats {
      var k :| 0 <= k < |cats| && cats[k] == c;
      assert cols[4 + k] == CountryColumn(c);
    }
  }

  /** The three values read from `gdp_lags`. */
  datatype Lags = Lags(lag1: Value, lag2: Value, lag3: Value)

  /** `gdp_lags['GDP_lag_1']`, then `..._2`, then `..._3`: the first missing
      key raises KeyError, and a `gdp_lags` that is not a dict raises a
      TypeError. */
  function ReadLags(gdpLags: Value): (r: Result<Lags>)
    ensures r.Ok? <==>
      gdpLags.Dict? && "GDP_lag_1" in gdpLags.entries
      && "GDP_lag_2" in gdpLags.entries && "GDP_lag_3" in gdpLags.entries
    ensures r.Ok? ==>
      r.value == Lags(gdpLags.entries["GDP_lag_1"], gdpLags.entries["GDP_lag_2"],
                      gdpLags.entries["GDP_lag_3"])
    ensures gdpLags.Dict? && "GDP_lag_1" !in gdpLags.entries ==>
      r == Err(KeyError("GDP_lag_1"))
    ensures gdpLags.Dict? && "GDP_lag_1" in gdpLags.entries && "GDP_lag_2" !in gdpLags.entries ==>
      r == Err(KeyError("GDP_lag_2"))
    ensures gdpLags.Dict? && "GDP_lag_1" in gdpLags.entries && "GDP_lag_2" in gdpLags.entries
            && "GDP_lag_3" !in gdpLags.entries ==>
      r == Err(KeyError("GDP_lag_3"))
    ensures !gdpLags.Dict? ==> r.Err? && r.error.OtherError?
  {
    match Subscript(gdpLags, "GDP_lag_1")
    case Err(e) => Err(e)
    case Ok(lag1) =>
      match Subscript(gdpLags, "GDP_lag_2")
      case Err(e) => Err(e)
      case Ok(lag2) =>
        match Subscript(gdpLags, "GDP_lag_3")
        case Err(e) => Err(e)
        case Ok(lag3) => Ok(Lags(lag1, lag2, lag3))
  }

  /** The cell that schema column `col` ends up with: the year, a lag value,
      True for the requested country's column, and False for every other
      one-hot column and for any column the request did not supply. */
  function Cell(col: string, year: Value, lags: Lags, countryCol: string): Value
  {
    if col == "Year" then year
    else if col == "GDP_lag_1" then lags.lag1
    else if col == "GDP_lag_2" then lags.lag2
    else if col == "GDP_lag_3" then lags.lag3
    else if IsCountryColumn(col) then Bool(col == countryCol)
    else Bool(false)
  }

  /** The row laid out column by column in schema order. */
  function AlignedRow(year: Value, lags: Lags, countryCol: string, schema: seq<string>): FeatureRow
  {
    seq(|schema|, i requires 0 <= i < |schema| => (schema[i], Cell(schema[i], year, lags, countryCol)))
  }

  /** What the feature-row part of `predict_gdp_for_country` produces: the
      lag lookups first, then the unknown-country check, then the aligned row. */
  function BuildFeatureRow(countryName: string, predictionYear: Value, gdpLags: Value,
                           schema: seq<string>): Result<FeatureRow>
  {
    match ReadLags(gdpLags)
    case Err(e) => Err(e)
    case Ok(lags) =>
      var countryCol := CountryColumn(countryName);
      if countryCol in schema then Ok(AlignedRow(predictionYear, lags, countryCol, schema))
      else Err(ValueError(UnknownCountryMessage(countryName)))
  }

  /** What `predict_gdp_for_country` returns or raises; `modelFile` is None
      when no file exists at ModelPath. */
  function Prediction(countryName: string, predictionYear: Value, gdpLags: Value,
                      schema: seq<string>, modelFile: Option<Regressor>): Result<real>
  {
    match modelFile
    case None => Err(FileNotFoundError(ModelMissingMessage))
    case Some(regressor) =>
      match BuildFeatureRow(countryName, predictionYear, gdpLags, schema)
      case Err(e) => Err(e)
      case Ok(row) =>
        match regressor(row)
        case Err(e) => Err(e)
        case Ok(predicted) =>
          if |predicted| == 0 then Err(OtherError(EmptyPredictionMessage)) else Ok(predicted[0])
  }

  /** Whether the key list of a dict (its insertion order) and its entries
      name the same keys. */
  ghost predicate SameKeys(columns: seq<string>, data: map<string, Value>)
  {
    forall k :: k in columns <==> k in data
  }

  /** `for col in trained_feature_columns: if col.startswith('Country_'):
      prediction_data[col] = False`. */
  method ResetCountryColumns(schema: seq<string>, columns: seq<string>, data: map<string, Value>)
    returns (columns': seq<string>, data': map<string, Value>)
    requires SameKeys(columns, data)
    ensures SameKeys(columns', data')
    ensures forall k :: k in data' <==> k in data || (k in schema && IsCountryColumn(k))
    ensures forall k :: k in data' ==>
      data'[k] == if k in schema && IsCountryColumn(k) then Bool(false) else data[k]
  {
    columns', data' := columns, data;
    for i := 0 to |schema|
      invariant SameKeys(columns', data')
      invariant forall k :: k in data' <==> k in data || (k in schema[..i] && IsCountryColumn(k))
      invariant forall k :: k in data' ==>
        data'[k] == if k in schema[..i] && IsCountryColumn(k) then Bool(false) else data[k]
    {
      if IsCountryColumn(schema[i]) {
        if schema[i] !in data' {
          columns' := columns' + [schema[i]];
        }
        data' := data'[schema[i] := Bool(false)];
      }
      assert schema[..i + 1] == schema[..i] + [schema[i]];
    }
    assert schema[..|schema|] == schema;
  }

  /** `X_predict.drop(columns=list(extra_cols_in_predict))` when there are
      columns outside the schema. */
  method DropExtraColumns(schema: seq<string>, columns: seq<string>, data: map<string, Value>)
    returns (columns': seq<string>, data': map<string, Value>)
    requires SameKeys(columns, data)
    ensures SameKeys(columns', data')
    ensures forall k :: k in data' <==> k in data && k in schema
    ensures forall k :: k in data' ==> data'[k] == data[k]
  {
    var extra := set k | k in data && k !in schema;
    assert forall k :: k in data && k !in schema ==> k in extra;
    columns', data' := columns, data;
    if extra != {} {
      var kept: seq<string> := [];
      for j := 0 to |columns|
        invariant forall k :: k in kept <==> k in columns[..j] && k !in extra
      {
        if columns[j] !in extra {
          kept := kept + [columns[j]];
        }
        assert columns[..j + 1] == columns[..j] + [columns[j]];
      }
      assert columns[..|columns|] == columns;
      columns', data' := kept, data - extra;
    }
  }

  /** `for col in missing_cols_in_predict: X_predict[col] = False`: the
      missing schema columns are appended in whatever order the set is
      iterated, which the choice below leaves open. */
  method AddMissingColumns(schema: seq<string>, columns: seq<string>, data: map<string, Value>)
    returns (columns': seq<string>, data': map<string, Value>)
    requires SameKeys(columns, data)
    ensures SameKeys(columns', data')
    ensures forall k :: k in data' <==> k in data || k in schema
    ensures forall k :: k in data' ==> data'[k] == if k in data then data[k] else Bool(false)
  {
    var missing := set c | c in schema && c !in data;
    columns', data' := columns, data;
    while missing != {}
      invariant SameKeys(columns', data')
      invariant forall k :: k in data' ==> k in data || k in schema
      invariant forall k :: k in data ==> k in data'
      invariant forall c :: c in schema ==> c in data' || c in missing
      invariant forall c :: c in missing ==> c !in data' && c !in data && c in schema
      invariant forall k :: k in data' ==> data'[k] == if k in data then data[k] else Bool(false)
      decreases missing
    {
      var c :| c in missing;
      columns' := columns' + [c];
      data' := data'[c := Bool(false)];
      missing := missing - {c};
    }
  }

  /** `X_predict[trained_feature_columns]`: the columns picked in schema
      order. */
  method SelectColumns(schema: seq<string>, data: map<string, Value>) returns (row: FeatureRow)
    requires forall c :: c in schema ==> c in data
    ensures Columns(row) == schema
    ensures forall m :: 0 <= m < |schema| ==> row[m].1 == data[schema[m]]
  {
    row := [];
    for j := 0 to |schema|
      invariant |row| == j
      invariant forall m :: 0 <= m < j ==> row[m] == (schema[m], data[schema[m]])
    {
      row := row + [(schema[j], data[schema[j]])];
    }
  }

  /** The row assembly of `predict_gdp_for_country`, step by step: the
      `prediction_data` dict, the one-hot reset, the True for the requested
      country, the one-row frame, the drop of extra columns, the addition of
      missing ones, and the final reorder to the schema. */
  method AssembleFeatureRow(countryName: string, predictionYear: Value, gdpLags: Value,
                            schema: seq<string>)
    returns (r: Result<FeatureRow>)
    ensures r == BuildFeatureRow(countryName, predictionYear, gdpLags, schema)
  {
    // the three lookups inside the `prediction_data` literal
    var lagsRead := ReadLags(gdpLags);
    if lagsRead.Err? {
      return Err(lagsRead.error);
    }
    var lags := lagsRead.value;
    var columns, data := SeedPredictionData(predictionYear, lags, schema);

    var countryCol := CountryColumn(countryName);
    if countryCol !in schema {
      return Err(ValueError(UnknownCountryMessage(countryName)));
    }
    // the key is already present, so the column order does not change
    data := data[countryCol := Bool(true)];

    var row := AlignToSchema(schema, columns, data);
    var aligned := AlignedRow(predictionYear, lags, countryCol, schema);
    SeedColumnsAreNotCountryColumns();
    forall m | 0 <= m < |schema|
      ensures row[m] == aligned[m]
    {
      assert row[m].0 == Columns(row)[m] == schema[m];
      if schema[m] in SeedColumns {
        assert schema[m] in data;
      }
    }
    assert |Columns(row)| == |row| == |schema|;
    assert row == aligned;
    return Ok(row);
  }

  /** `prediction_data` seeded with the year and the three lags, after the
      loop that sets every `Country_` column of the schema to False. */
  method SeedPredictionData(predictionYear: Value, lags: Lags, schema: seq<string>)
    returns (columns: seq<string>, data: map<string, Value>)
    ensures SameKeys(columns, data)
    ensures forall k :: k in data <==> k in SeedColumns || (k in schema && IsCountryColumn(k))
    ensures "Year" in data && data["Year"] == predictionYear
    ensures "GDP_lag_1" in data && data["GDP_lag_1"] == lags.lag1
    ensures "GDP_lag_2" in data && data["GDP_lag_2"] == lags.lag2
    ensures "GDP_lag_3" in data && data["GDP_lag_3"] == lags.lag3
    ensures forall k :: k in data && IsCountryColumn(k) ==> data[k] == Bool(false)
  {
    SeedColumnsAreNotCountryColumns();
    columns := SeedColumns;
    data := map["Year" := predictionYear, "GDP_lag_1" := lags.lag1,
                "GDP_lag_2" := lags.lag2, "GDP_lag_3" := lags.lag3];
    columns, data := ResetCountryColumns(schema, columns, data);
  }

  /** The one-row frame cut down to the schema's columns, completed with
      False in the schema columns it lacks, and put in schema order. */
  method AlignToSchema(schema: seq<string>, columns: seq<string>, data: map<string, Value>)
    returns (row: FeatureRow)
    requires SameKeys(columns, data)
    ensures Columns(row) == schema
    ensures forall m :: 0 <= m < |schema| ==>
      row[m].1 == if schema[m] in data then data[schema[m]] else Bool(false)
  {
    var columns', data' := DropExtraColumns(schema, columns, data);
    columns', data' := AddMissingColumns(schema, columns', data');
    row := SelectColumns(schema, data');
  }

  /** `predict_gdp_for_country`: the model-file check, the row assembly, and
      the first element of the regressor's output. */
  method PredictGdpForCountry(countryName: string, predictionYear: Value, gdpLags: Value,
                              schema: seq<string>, modelFile: Option<Regressor>)
    returns (r: Result<real>)
    ensures r == Prediction(countryName, predictionYear, gdpLags, schema, modelFile)
  {
    match modelFile
    case None =>
      return Err(FileNotFoundError(ModelMissingMessage));
    case Some(regressor) =>
      var row := AssembleFeatureRow(countryName, predictionYear, gdpLags, schema);
      if row.Err? {
        return Err(row.error);
      }
      var predicted := regressor(row.value);
      if predicted.Err? {
        return Err(predicted.error);
      }
      if |predicted.value| == 0 {
        return Err(OtherError(EmptyPredictionMessage));
      }
      return Ok(predicted.value[0]);
  }

  // ---------------------------------------------------------------------
  // Properties of the builder

  /** A missing model file is reported before anything else is looked at:
      the request's lags and country do not matter. */
  lemma MissingModelFileReportedFirst(countryName: string, predictionYear: Value, gdpLags: Value,
                                      schema: seq<string>)
    ensures Prediction(countryName, predictionYear, gdpLags, schema, None)
            == Err(FileNotFoundError(ModelMissingMessage))
  {
  }

  /** A lag that cannot be read is reported before the country is examined,
      whatever the country and the schema. */
  lemma LagErrorBeforeCountryCheck(countryName: string, predictionYear: Value, gdpLags: Value,
                                   schema: seq<string>, regressor: Regressor)
    requires ReadLags(gdpLags).Err?
    ensures BuildFeatureRow(countryName, predictionYear, gdpLags, schema) == Err(ReadLags(gdpLags).error)
    ensures Prediction(countryName, predictionYear, gdpLags, schema, Some(regressor))
            == Err(ReadLags(gdpLags).error)
  {
  }

  /** A country whose one-hot column is not in the schema raises ValueError
      and no row is produced. */
  lemma UnknownCountryRaises(countryName: string, predictionYear: Value, gdpLags: Value,
                             schema: seq<string>)
    requires ReadLags(gdpLags).Ok?
    ensures CountryColumn(countryName) !in schema <==>
            BuildFeatureRow(countryName, predictionYear, gdpLags, schema)
            == Err(ValueError(UnknownCountryMessage(countryName)))
    ensures CountryColumn(countryName) in schema ==>
            BuildFeatureRow(countryName, predictionYear, gdpLags, schema).Ok?
  {
  }

  /** The produced row has exactly the schema's columns, in the schema's
      order: stray keys are gone and missing columns are present. */
  lemma RowColumnsAreSchema(countryName: string, predictionYear: Value, gdpLags: Value,
                            schema: seq<string>)
    requires BuildFeatureRow(countryName, predictionYear, gdpLags, schema).Ok?
    ensures Columns(BuildFeatureRow(countryName, predictionYear, gdpLags, schema).value) == schema
  {
  }

  /** Year and the lags are copied unchanged into their columns; a schema
      column the request does not supply, and is not a one-hot column, is
      False. */
  lemma RowCellsCopyRequest(countryName: string, predictionYear: Value, gdpLags: Value,
                            schema: seq<string>, i: int)
    requires BuildFeatureRow(countryName, predictionYear, gdpLags, schema).Ok?
    requires 0 <= i < |schema|
    ensures var row := BuildFeatureRow(countryName, predictionYear, gdpLags, schema).value;
      && (schema[i] == "Year" ==> row[i].1 == predictionYear)
      && (schema[i] == "GDP_lag_1" ==> row[i].1 == gdpLags.entries["GDP_lag_1"])
      && (schema[i] == "GDP_lag_2" ==> row[i].1 == gdpLags.entries["GDP_lag_2"])
      && (schema[i] == "GDP_lag_3" ==> row[i].1 == gdpLags.entries["GDP_lag_3"])
      && (schema[i] !in SeedColumns && !IsCountryColumn(schema[i]) ==> row[i].1 == Bool(false))
  {
  }

  /** The indices of the one-hot columns of a row that hold True. */
  function TrueCountryIndices(row: FeatureRow): set<int>
  {
    set i | 0 <= i < |row| && IsCountryColumn(row[i].0) && row[i].1 == Bool(true)
  }

  /** With distinct schema columns, exactly one one-hot column of the row is
      True, and it is the requested country's; every other one-hot column is
      False. */
  lemma ExactlyOneCountryColumnTrue(countryName: string, predictionYear: Value, gdpLags: Value,
                                    schema: seq<string>)
    requires Distinct(schema)
    requires BuildFeatureRow(countryName, predictionYear, gdpLags, schema).Ok?
    ensures var row := BuildFeatureRow(countryName, predictionYear, gdpLags, schema).value;
      && |TrueCountryIndices(row)| == 1
      && (forall i :: i in TrueCountryIndices(row) ==> row[i].0 == CountryColumn(countryName))
      && (forall i :: 0 <= i < |row| && IsCountryColumn(row[i].0) && row[i].0 != CountryColumn(countryName)
            ==> row[i].1 == Bool(false))
  {
    var row := BuildFeatureRow(countryName, predictionYear, gdpLags, schema).value;
    var col := CountryColumn(countryName);
    var k :| 0 <= k < |schema| && schema[k] == col;
    SeedColumnsAreNotCountryColumns();
    assert TrueCountryIndices(row) == {k} by {
      forall i | i in TrueCountryIndices(row)
        ensures i == k
      {
        assert schema[i] == col;
      }
      assert k in TrueCountryIndices(row);
    }
  }
}
