/** The `/predict` endpoint of predict_app.py: the fixed training schema, the
    extraction of the request fields, and the mapping of every outcome of the
    prediction to an HTTP status and a JSON body. */
module PredictApp {
  import opened PyValues
  import opened FeatureRows
  import opened TextOrder

  /** The country display names behind the one-hot columns, in the order
      the columns appear. */
  const TrainedCountries: seq<string> :=
    ["Australia", "Brazil", "Canada", "China", "France", "Germany", "India", "Indonesia",
     "Japan", "Korea, Rep.", "Mexico", "Russian Federation", "South Africa",
     "United Kingdom", "United States"]

  /** `trained_feature_columns`, which must equal the training frame's
      feature columns: "Year", the three lags, then "Country_Australia"
      through "Country_United States". */
  const TrainedFeatureColumns: seq<string> := FeatureColumns(TrainedCountries)

  /** Written out, the schema is the literal list of the handler. */
  lemma TrainedFeatureColumnsAsListed()
    ensures SeedColumns == ["Year", "GDP_lag_1", "GDP_lag_2", "GDP_lag_3"]
    ensures TrainedFeatureColumns == SeedColumns +
      ["Country_Australia", "Country_Brazil", "Country_Canada", "Country_China",
       "Country_France", "Country_Germany", "Country_India", "Country_Indonesia",
       "Country_Japan", "Country_Korea, Rep.", "Country_Mexico", "Country_Russian Federation",
       "Country_South Africa", "Country_United Kingdom", "Country_United States"]
  {
    TrainedCountryColumnsAsListed();
  }

  /** The one-hot part of the schema, written out. */
  lemma TrainedCountryColumnsAsListed()
    ensures CountryColumns(TrainedCountries) ==
      ["Country_Australia", "Country_Brazil", "Country_Canada", "Country_China",
       "Country_France", "Country_Germany", "Country_India", "Country_Indonesia",
       "Country_Japan", "Country_Korea, Rep.", "Country_Mexico", "Country_Russian Federation",
       "Country_South Africa", "Country_United Kingdom", "Country_United States"]
  {
    TrainedCountryColumnsByName();
    CountryColumnsSpelledOut();
  }

  lemma TrainedCountryColumnsByName()
    ensures CountryColumns(TrainedCountries) ==
      [CountryColumn("Australia"), CountryColumn("Brazil"), CountryColumn("Canada"),
       CountryColumn("China"), CountryColumn("France"), CountryColumn("Germany"),
       CountryColumn("India"), CountryColumn("Indonesia"), CountryColumn("Japan"),
       CountryColumn("Korea, Rep."), CountryColumn("Mexico"), CountryColumn("Russian Federation"),
       CountryColumn("South Africa"), CountryColumn("United Kingdom"), CountryColumn("United States")]
  {
  }

  lemma CountryColumnsSpelledOut()
    ensures [CountryColumn("Australia"), CountryColumn("Brazil"), CountryColumn("Canada"),
       CountryColumn("China"), CountryColumn("France"), CountryColumn("Germany"),
       CountryColumn("India"), CountryColumn("Indonesia"), CountryColumn("Japan"),
       CountryColumn("Korea, Rep."), CountryColumn("Mexico"), CountryColumn("Russian Federation"),
       CountryColumn("South Africa"), CountryColumn("United Kingdom"), CountryColumn("United States")]
         == ["Country_Australia", "Country_Brazil", "Country_Canada", "Country_China",
       "Country_France", "Country_Germany", "Country_India", "Country_Indonesia",
       "Country_Japan", "Country_Korea, Rep.", "Country_Mexico", "Country_Russian Federation",
       "Country_South Africa", "Country_United Kingdom", "Country_United States"]
  {
    CountryColumnsSpelledOut0();
    CountryColumnsSpelledOut3();
    CountryColumnsSpelledOut6();
    CountryColumnsSpelledOut9();
    CountryColumnsSpelledOut12();
  }

  lemma CountryColumnsSpelledOut0()
    ensures CountryColumn("Australia") == "Country_Australia"
    ensures CountryColumn("Brazil") == "Country_Brazil"
    ensures CountryColumn("Canada") == "Country_Canada"
  {
  }

  lemma CountryColumnsSpelledOut3()
    ensures CountryColumn("China") == "Country_China"
    ensures CountryColumn("France") == "Country_France"
    ensures CountryColumn("Germany") == "Country_Germany"
  {
  }

  lemma CountryColumnsSpelledOut6()
    ensures CountryColumn("India") == "Country_India"
    ensures CountryColumn("Indonesia") == "Country_Indonesia"
    ensures CountryColumn("Japan") == "Country_Japan"
  {
  }

  lemma CountryColumnsSpelledOut9()
    ensures CountryColumn("Korea, Rep.") == "Country_Korea, Rep."
    ensures CountryColumn("Mexico") == "Country_Mexico"
    ensures CountryColumn("Russian Federation") == "Country_Russian Federation"
  {
  }

  lemma CountryColumnsSpelledOut12()
    ensures CountryColumn("South Africa") == "Country_South Africa"
    ensures CountryColumn("United Kingdom") == "Country_United Kingdom"
    ensures CountryColumn("United States") == "Country_United States"
  {
  }

  /** The trained countries are strictly ascending, as `pd.get_dummies`
      orders its categories. */
  lemma TrainedCountriesAscending()
    ensures StrictlySorted(TrainedCountries)
  {
    TrainedCountriesAscendPairwise();
    AscendingIsStrictlySorted(TrainedCountries);
  }

  lemma TrainedCountriesAscendPairwise()
    ensures Ascending(TrainedCountries)
  {
    FirstPairsAscend();
    MiddlePairsAscend();
    LastPairsAscend();
  }

  lemma FirstPairsAscend()
    ensures forall i :: 0 <= i < 5 ==> Less(TrainedCountries[i], TrainedCountries[i + 1])
  {
    forall i | 0 <= i < 5
      ensures Less(TrainedCountries[i], TrainedCountries[i + 1])
    {
      if i == 0 {
        LessAt(TrainedCountries[0], TrainedCountries[1], 0);
      } else if i == 1 {
        LessAt(TrainedCountries[1], TrainedCountries[2], 0);
      } else if i == 2 {
        LessAt(TrainedCountries[2], TrainedCountries[3], 1);
      } else if i == 3 {
        LessAt(TrainedCountries[3], TrainedCountries[4], 0);
      } else {
        LessAt(TrainedCountries[4], TrainedCountries[5], 0);
      }
    }
  }

  lemma MiddlePairsAscend()
    ensures forall i :: 5 <= i < 10 ==> Less(TrainedCountries[i], TrainedCountries[i + 1])
  {
    forall i | 5 <= i < 10
      ensures Less(TrainedCountries[i], TrainedCountries[i + 1])
    {
      if i == 5 {
        LessAt(TrainedCountries[5], TrainedCountries[6], 0);
      } else if i == 6 {
        LessAt(TrainedCountries[6], TrainedCountries[7], 3);
      } else if i == 7 {
        LessAt(TrainedCountries[7], TrainedCountries[8], 0);
      } else if i == 8 {
        LessAt(TrainedCountries[8], TrainedCountries[9], 0);
      } else {
        LessAt(TrainedCountries[9], TrainedCountries[10], 0);
      }
    }
  }

  lemma LastPairsAscend()
    ensures forall i :: 10 <= i < 14 ==> Less(TrainedCountries[i], TrainedCountries[i + 1])
  {
    forall i | 10 <= i < 14
      ensures Less(TrainedCountries[i], TrainedCountries[i + 1])
    {
      if i == 10 {
        LessAt(TrainedCountries[10], TrainedCountries[11], 0);
      } else if i == 11 {
        LessAt(TrainedCountries[11], TrainedCountries[12], 0);
      } else if i == 12 {
        LessAt(TrainedCountries[12], TrainedCountries[13], 0);
      } else {
        LessAt(TrainedCountries[13], TrainedCountries[14], 7);
      }
    }
  }

  /** The schema is the year, the three lags, then one one-hot column per
      trained country, and no column name occurs twice. */
  lemma TrainedFeatureColumnsLayout()
    ensures |TrainedFeatureColumns| == 4 + |TrainedCountries| == 19
    ensures TrainedFeatureColumns[..4] == SeedColumns
    ensures forall i :: 0 <= i < |TrainedCountries| ==>
      TrainedFeatureColumns[4 + i] == CountryColumn(TrainedCountries[i])
    ensures Distinct(TrainedFeatureColumns)
  {
    TrainedCountriesAscending();
    FeatureColumnsLayout(TrainedCountries);
  }

  /** A request can name a country exactly when it is one of the trained
      countries. */
  lemma TrainedCountryColumns(country: string)
    ensures CountryColumn(country) in TrainedFeatureColumns <==> country in TrainedCountries
  {
    TrainedCountriesAscending();
    FeatureColumnsLayout(TrainedCountries);
  }

  /** A JSON response: its HTTP status and the object it carries. */
  datatype Response = Response(status: int, body: map<string, Value>)

  /** The `except` clauses of `predict()`. */
  function ErrorResponse(e: Error): (resp: Response)
    ensures resp.status == (if e.OtherError? then 500 else 400)
    ensures resp.body.Keys == {"error"} && resp.body["error"].Str?
  {
    match e
    case KeyError(key) => Response(400, map["error" := Str("Missing data field: '" + key + "'")])
    case ValueError(message) => Response(400, map["error" := Str(message)])
    case FileNotFoundError(message) => Response(400, map["error" := Str(message)])
    case OtherError(message) => Response(500, map["error" := Str("An unexpected error occurred: " + message)])
  }

  /** `predict()` on the decoded request body `data`. `render` is Python's
      `str` formatting of the `country_name` value, and `modelFile` is the
      regressor stored at the model path, if any. */
  function Predict(data: Value, render: Value -> string, modelFile: Option<Regressor>): (resp: Response)
    ensures resp.status in {200, 400, 500}
    ensures resp.status == 200 ==> resp.body.Keys == {"country", "prediction_year", "predicted_gdp"}
    ensures resp.status != 200 ==> resp.body.Keys == {"error"}
  {
    match Subscript(data, "country_name")
    case Err(e) => ErrorResponse(e)
    case Ok(countryName) =>
      match Subscript(data, "prediction_year")
      case Err(e) => ErrorResponse(e)
      case Ok(predictionYear) =>
        match Subscript(data, "gdp_lags")
        case Err(e) => ErrorResponse(e)
        case Ok(gdpLags) =>
          match Prediction(render(countryName), predictionYear, gdpLags, TrainedFeatureColumns, modelFile)
          case Err(e) => ErrorResponse(e)
          case Ok(gdp) =>
            Response(200, map["country" := countryName, "prediction_year" := predictionYear,
                              "predicted_gdp" := Float(gdp)])
  }

  /** Formatting a Python string gives the string itself. */
  ghost predicate RendersStrings(render: Value -> string)
  {
    forall s :: render(Str(s)) == s
  }

  function MissingFieldBody(key: string): map<string, Value>
  {
    map["error" := Str("Missing data field: '" + key + "'")]
  }

  // ---------------------------------------------------------------------
  // Properties of the handler

  /** Every outcome is 200, 400 or 500; an error is 500 exactly when it is
      none of KeyError, ValueError and FileNotFoundError. */
  lemma StatusCodes(data: Value, render: Value -> string, modelFile: Option<Regressor>, e: Error)
    ensures Predict(data, render, modelFile).status in {200, 400, 500}
    ensures ErrorResponse(e).status == 500 <==> e.OtherError?
    ensures ErrorResponse(e).status != 200
  {
  }

  /** A missing top-level field is a 400 naming the first one missing. */
  lemma MissingRequestFieldIs400(data: Value, render: Value -> string, modelFile: Option<Regressor>)
    requires data.Dict?
    ensures "country_name" !in data.entries ==>
      Predict(data, render, modelFile) == Response(400, MissingFieldBody("country_name"))
    ensures "country_name" in data.entries && "prediction_year" !in data.entries ==>
      Predict(data, render, modelFile) == Response(400, MissingFieldBody("prediction_year"))
    ensures "country_name" in data.entries && "prediction_year" in data.entries
            && "gdp_lags" !in data.entries ==>
      Predict(data, render, modelFile) == Response(400, MissingFieldBody("gdp_lags"))
  {
  }

  /** With the model file present, a lag missing from `gdp_lags` is a 400
      naming the first missing lag, whatever the country. */
  lemma MissingLagIs400(data: Value, render: Value -> string, regressor: Regressor, key: string)
    requires data.Dict? && "country_name" in data.entries && "prediction_year" in data.entries
    requires "gdp_lags" in data.entries && data.entries["gdp_lags"].Dict?
    requires ReadLags(data.entries["gdp_lags"]) == Err(KeyError(key))
    ensures key in {"GDP_lag_1", "GDP_lag_2", "GDP_lag_3"}
    ensures key !in data.entries["gdp_lags"].entries
    ensures Predict(data, render, Some(regressor)) == Response(400, MissingFieldBody(key))
  {
  }

  /** A missing model file is a 400 carrying the file error's text, whatever
      the request's country and lags. */
  lemma MissingModelFileIs400(data: Value, render: Value -> string)
    requires data.Dict? && "country_name" in data.entries && "prediction_year" in data.entries
    requires "gdp_lags" in data.entries
    ensures Predict(data, render, None) == Response(400, map["error" := Str(ModelMissingMessage)])
  {
  }

  /** A country outside the training set is a 400 saying so. */
  lemma UnknownCountryIs400(data: Value, render: Value -> string, regressor: Regressor)
    requires data.Dict? && "country_name" in data.entries && "prediction_year" in data.entries
    requires "gdp_lags" in data.entries && ReadLags(data.entries["gdp_lags"]).Ok?
    requires render(data.entries["country_name"]) !in TrainedCountries
    ensures Predict(data, render, Some(regressor))
            == Response(400, map["error" := Str(UnknownCountryMessage(render(data.entries["country_name"])))])
  {
    TrainedCountryColumns(render(data.entries["country_name"]));
  }

  /** Any other exception raised while predicting is a 500: the regressor's
      own, the IndexError of an empty prediction, or the TypeError of a
      `gdp_lags` that is not a dict. */
  lemma UnexpectedErrorIs500(data: Value, render: Value -> string, modelFile: Option<Regressor>, message: string)
    requires data.Dict? && "country_name" in data.entries && "prediction_year" in data.entries
    requires "gdp_lags" in data.entries
    requires Prediction(render(data.entries["country_name"]), data.entries["prediction_year"],
                        data.entries["gdp_lags"], TrainedFeatureColumns, modelFile)
             == Err(OtherError(message))
    ensures Predict(data, render, modelFile)
            == Response(500, map["error" := Str("An unexpected error occurred: " + message)])
  {
  }

  /** A request body that is not a JSON object fails at `data['country_name']`
      with a TypeError, which is a 500. */
  lemma NonObjectBodyIs500(data: Value, render: Value -> string, modelFile: Option<Regressor>)
    requires !data.Dict?
    ensures Predict(data, render, modelFile).status == 500
  {
  }

  /** A regressor that returns no prediction makes `predicted[0]` raise
      IndexError, which is a 500. */
  lemma EmptyPredictionIs500(data: Value, render: Value -> string, regressor: Regressor)
    requires data.Dict? && "country_name" in data.entries && "prediction_year" in data.entries
    requires "gdp_lags" in data.entries
    requires var row := BuildFeatureRow(render(data.entries["country_name"]), data.entries["prediction_year"],
                                        data.entries["gdp_lags"], TrainedFeatureColumns);
      row.Ok? && regressor(row.value) == Ok([])
    ensures Predict(data, render, Some(regressor))
            == Response(500, map["error" := Str("An unexpected error occurred: " + EmptyPredictionMessage)])
  {
  }

  /** A `gdp_lags` that is not a dict fails at its first subscript with a
      TypeError, which is a 500 whatever the country. */
  lemma NonObjectLagsIs500(data: Value, render: Value -> string, regressor: Regressor)
    requires data.Dict? && "country_name" in data.entries && "prediction_year" in data.entries
    requires "gdp_lags" in data.entries && !data.entries["gdp_lags"].Dict?
    ensures Predict(data, render, Some(regressor)).status == 500
  {
  }

  /** A 200 response echoes `country_name` as `country` and
      `prediction_year` unchanged, next to the first prediction of the
      regressor. */
  lemma SuccessEchoesRequest(data: Value, render: Value -> string, modelFile: Option<Regressor>)
    requires Predict(data, render, modelFile).status == 200
    ensures data.Dict? && "country_name" in data.entries && "prediction_year" in data.entries
    ensures "gdp_lags" in data.entries
    ensures var body := Predict(data, render, modelFile).body;
      && body.Keys == {"country", "prediction_year", "predicted_gdp"}
      && body["country"] == data.entries["country_name"]
      && body["prediction_year"] == data.entries["prediction_year"]
      && body["predicted_gdp"].Float?
      && Prediction(render(data.entries["country_name"]), data.entries["prediction_year"],
                    data.entries["gdp_lags"], TrainedFeatureColumns, modelFile)
         == Ok(body["predicted_gdp"].r)
  {
  }

  /** The documented request for the United States: with a regressor that
      returns a prediction, the answer is 200 with the country and year echoed. */
  lemma UnitedStatesRequestSucceeds(render: Value -> string, regressor: Regressor, lag1: real, lag2: real,
                                    lag3: real)
    requires RendersStrings(render)
    requires var lags := Dict(map["GDP_lag_1" := Float(lag1), "GDP_lag_2" := Float(lag2),
                                  "GDP_lag_3" := Float(lag3)]);
      var row := BuildFeatureRow("United States", Int(2023), lags, TrainedFeatureColumns);
      row.Ok? ==> regressor(row.value).Ok? && regressor(row.value).value != []
    ensures var data := Dict(map["country_name" := Str("United States"), "prediction_year" := Int(2023),
                                 "gdp_lags" := Dict(map["GDP_lag_1" := Float(lag1), "GDP_lag_2" := Float(lag2),
                                                        "GDP_lag_3" := Float(lag3)])]);
      exists gdp: real :: Predict(data, render, Some(regressor))
        == Response(200, map["country" := Str("United States"), "prediction_year" := Int(2023),
                             "predicted_gdp" := Float(gdp)])
  {
    var lags := Dict(map["GDP_lag_1" := Float(lag1), "GDP_lag_2" := Float(lag2), "GDP_lag_3" := Float(lag3)]);
    var data := Dict(map["country_name" := Str("United States"), "prediction_year" := Int(2023), "gdp_lags" := lags]);
    TrainedCountryColumns("United States");
    var predicted := Prediction("United States", Int(2023), lags, TrainedFeatureColumns, Some(regressor));
    assert predicted.Ok?;
    assert Predict(data, render, Some(regressor))
      == Response(200, map["country" := Str("United States"), "prediction_year" := Int(2023),
                           "predicted_gdp" := Float(predicted.value)]);
  }

  /** A request for a country the regressor never saw is a 400 whose text
      says it was not in the training data. */
  lemma AtlantisRequestRejected(render: Value -> string, regressor: Regressor, lags: map<string, Value>)
    requires RendersStrings(render)
    requires "GDP_lag_1" in lags && "GDP_lag_2" in lags && "GDP_lag_3" in lags
    ensures var data := Dict(map["country_name" := Str("Atlantis"), "prediction_year" := Int(2023),
                                 "gdp_lags" := Dict(lags)]);
      Predict(data, render, Some(regressor))
      == Response(400, map["error" := Str(UnknownCountryMessage("Atlantis"))])
  {
    TrainedCountryColumns("Atlantis");
    assert "Atlantis" !in TrainedCountries;
  }
}
