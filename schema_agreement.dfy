/** How the two sides of the regressor meet: the feature rows train_model.py
    trains on and the single row ml_prediction/predict_gdp.py rebuilds for a
    request have the same columns in the same order and the same cells, and
    the column list hard-coded in predict_app.py is the one training produces
    when the fetched countries are the fifteen trained ones. */
module SchemaAgreement {
  import opened PyValues
  import opened TextOrder
  import opened FeatureRows
  import opened PredictApp
  import opened TrainingShift
  import opened TrainingEncode

  /** The `gdp_lags` object of a request carrying a sample's three lags. */
  function LagsRequest(s: Sample): Value
  {
    Dict(map["GDP_lag_1" := Float(s.lag1), "GDP_lag_2" := Float(s.lag2), "GDP_lag_3" := Float(s.lag3)])
  }

  lemma ReadSampleLags(s: Sample)
    ensures ReadLags(LagsRequest(s)) == Ok(Lags(Float(s.lag1), Float(s.lag2), Float(s.lag3)))
  {
  }

  /** A request with a training sample's country, year and lags, checked
      against the training feature columns, rebuilds exactly that sample's
      row of X. */
  lemma PredictionRowIsTrainingRow(s: Sample, cats: seq<string>)
    requires StrictlySorted(cats) && s.country in cats
    ensures BuildFeatureRow(s.country, Int(s.year), LagsRequest(s), FeatureColumns(cats)) == Ok(FeatureCells(s, cats))
  {
    ReadSampleLags(s);
    var schema := FeatureColumns(cats);
    var col := CountryColumn(s.country);
    var m :| 0 <= m < |cats| && cats[m] == s.country;
    assert schema[4 + m] == col;
    var row := AlignedRow(Int(s.year), Lags(Float(s.lag1), Float(s.lag2), Float(s.lag3)), col, schema);
    var cells := FeatureCells(s, cats);
    SeedColumnsAreNotCountryColumns();
    forall k | 0 <= k < |schema|
      ensures row[k] == cells[k]
    {
      if k < 4 {
        assert schema[k] == SeedColumns[k];
      } else {
        var name := cats[k - 4];
        assert schema[k] == CountryColumn(name);
        assert IsCountryColumn(schema[k]);
        assert schema[k] !in SeedColumns;
        if CountryColumn(name) == col {
          CountryColumnInjective(name, s.country);
        }
      }
    }
    assert |row| == |cells|;
    assert row == cells;
    assert col in schema;
  }

  /** When the countries that survive preparation are exactly the trained
      countries, the encoder's categories are the trained countries in
      their listed order, and the feature columns of X are
      `trained_feature_columns`. */
  lemma TrainedColumnsMatchTraining(samples: seq<Sample>)
    requires forall c :: (exists i :: 0 <= i < |samples| && samples[i].country == c) <==> c in TrainedCountries
    ensures Categories(samples) == TrainedCountries
    ensures FeatureColumns(Categories(samples)) == TrainedFeatureColumns
  {
    var cats := Categories(samples);
    TrainedCountriesAscending();
    assert forall y :: y in cats <==> y in TrainedCountries;
    StrictlySortedUnique(cats, TrainedCountries);
  }

  /** Under the same condition, every row of X equals the row the
      prediction side builds against `trained_feature_columns` for that
      row's country, year and lags. */
  lemma TrainingRowsArePredictionRows(samples: seq<Sample>, i: int)
    requires forall c :: (exists i :: 0 <= i < |samples| && samples[i].country == c) <==> c in TrainedCountries
    requires 0 <= i < |samples|
    ensures var xy := SplitFeaturesTarget(OneHot(samples));
      && xy.0.columns == TrainedFeatureColumns
      && BuildFeatureRow(samples[i].country, Int(samples[i].year), LagsRequest(samples[i]), TrainedFeatureColumns)
         == Ok(xy.0.rows[i])
  {
    TrainedColumnsMatchTraining(samples);
    SplitColumns(samples);
    assert samples[i].country in Categories(samples);
    PredictionRowIsTrainingRow(samples[i], Categories(samples));
  }
}
