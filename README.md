# GDP regressor feature handling, modelled in Dafny

This project models the feature handling on both sides of the GDP
regressor. The rest of the system (fetching, training the random forest,
serving pages, drawing charts) is left out.

- **Prediction side** (`ml_prediction/predict_gdp.py`, module `FeatureRows`).
  `predict_gdp_for_country` first checks that the model file exists. It then
  builds the `prediction_data` dict (year and three lags), resets every
  `Country_` column of the schema to False and sets the requested country's
  column to True. An unknown country raises ValueError. The one-row frame
  then loses the columns outside the schema, gains the missing schema columns
  as False, and is reordered to the schema. The result is the first element
  of the regressor's output. The step-by-step methods are proved equal to a
  column-by-column specification (`BuildFeatureRow`, `Prediction`).
- **Request handler** (`predict_app.py`, module `PredictApp`). This holds the
  hard-coded `trained_feature_columns` and `predict()`. `predict()` reads the
  three request fields, calls the builder and maps each outcome to an HTTP
  status and a JSON body.
- **Training preparation** (`train_model.py`, modules `TrainingRecords`,
  `TrainingClean`, `TrainingShift` and `TrainingEncode`). The chain is:
  pick `data[1]` from the response, parse each record, sort by
  (Country, Year), forward-fill GDP within each country, drop rows still
  without GDP, add the lead and lag columns per country, drop incomplete
  rows, one-hot encode the country, and split into X and y. The parsing loop
  is a method proved equal to its specification function. The other steps
  are functions over sequences of rows, chained as the script chains them.
- **Agreement of the two sides** (module `SchemaAgreement`). A request that
  carries a training row's country, year and lags rebuilds exactly that
  row of X. If the countries that survive preparation are the fifteen listed
  ones, then the training feature columns are `trained_feature_columns`.
- **Dashboard selection** (`visual.js`, module `Dashboard`). The
  `selectedCountries` list is a class whose click handler splices out or
  pushes an entry and whose clear handler empties it. `data.reverse().find(...)`
  is a method on an array that reverses it in place and then searches it.
  `updateChart` is a function of the selection, the chart type and the data
  served for each country.

Shared pieces: `PyValues` holds decoded JSON values, Python's exception
classes and dict subscripting. `TextOrder` holds Python's string order,
strictly ascending lists and sorted insertion without duplicates.

The regressor is a function parameter from a feature row to either an
array of predictions or an exception. Whether the model file exists is an
`Option` of that regressor. Python's `str()` of a non-string `country_name`
is a parameter too (`render`). The data served for each dashboard country
is a function parameter from country code to array.

`PredictApp.TrainedFeatureColumns` is written as `FeatureColumns` of the
fifteen country names in the listed order: "Year", the three lags, then
`Country_<name>` for each country. `TrainedFeatureColumnsAsListed` proves it
is the literal list at `predict_app.py:21-26`, written out. Its layout (19 distinct columns, seeds first,
country columns in strictly ascending name order) is proved by
`TrainedFeatureColumnsLayout` and `TrainedCountriesAscending`.

Three behaviours of the code that a reader might not expect, all modelled as written:

- A missing model file raises FileNotFoundError, and the handler answers
  400 with its text, not a server error.
- An unexpected exception is answered with 500 and a message that includes
  the exception's text, not only a generic message.
- Extra keys inside `gdp_lags` are ignored, not rejected.

## Model

| member | source | states |
|---|---|---|
| PyValues.Subscript | predict_app.py:53-55 | `d[key]` succeeds exactly when `d` is a dict holding `key` and then gives that entry; a missing key raises KeyError naming the key; a non-dict raises a non-Key error |
| FeatureRows.CountryColumn | ml_prediction/predict_gdp.py:46 | the column name starts with `Country_` and the rest is the country name |
| FeatureRows.SeedColumnsAreNotCountryColumns | ml_prediction/predict_gdp.py:33-43 | none of Year and the three lags starts with `Country_`, so the reset loop never overwrites them |
| FeatureRows.ReadLags | ml_prediction/predict_gdp.py:35-37 | the three lag lookups succeed exactly when `gdp_lags` is a dict with all three keys and copy the values; otherwise the KeyError of the first missing key, or a TypeError for a non-dict |
| FeatureRows.CountryColumns | train_model.py:83 | one `Country_` column per country name, in the names' order |
| FeatureRows.FeatureColumnsLayout | train_model.py:83-89 | over strictly ascending country names, the feature columns are the four seed columns then each country's column in order, no name occurs twice, and a country's column is present exactly when the country is listed |
| FeatureRows.ResetCountryColumns | ml_prediction/predict_gdp.py:40-43 | after the loop, every `Country_` column of the schema is present and False, every other key keeps its value, and the key list still names exactly the dict's keys |
| FeatureRows.DropExtraColumns | ml_prediction/predict_gdp.py:57-59 | exactly the keys outside the schema are removed, and the kept cells are unchanged |
| FeatureRows.AddMissingColumns | ml_prediction/predict_gdp.py:61-64 | every schema column becomes present, the added ones False, the existing ones unchanged, whatever order the set of missing columns is iterated in |
| FeatureRows.SeedPredictionData | ml_prediction/predict_gdp.py:33-43 | `prediction_data` holds the year and the three lags under their keys and False in every `Country_` column of the schema, and no other key |
| FeatureRows.AlignToSchema | ml_prediction/predict_gdp.py:57-66 | the one-row frame ends up with exactly the schema's columns in order; each holds the dict's value when the dict has that key and False otherwise |
| FeatureRows.SelectColumns | ml_prediction/predict_gdp.py:66 | the row's columns are the schema in order, each holding the dict's cell for that column |
| FeatureRows.AssembleFeatureRow | ml_prediction/predict_gdp.py:33-66 | the step-by-step assembly returns the aligned row or raises exactly as the column-by-column `BuildFeatureRow` says |
| FeatureRows.PredictGdpForCountry | ml_prediction/predict_gdp.py:27-71 | the whole function returns or raises exactly as `Prediction`: file check, row assembly, regressor, first prediction, IndexError on an empty output |
| FeatureRows.MissingModelFileReportedFirst | ml_prediction/predict_gdp.py:27-28 | with no model file the result is FileNotFoundError with the fixed message, whatever the country and lags |
| FeatureRows.LagErrorBeforeCountryCheck | ml_prediction/predict_gdp.py:33-50 | a failing lag lookup is raised even for an unknown country, and before the regressor is called |
| FeatureRows.UnknownCountryRaises | ml_prediction/predict_gdp.py:46-50 | with readable lags, ValueError "Country '...' was not present in the training data." is raised exactly when `Country_<name>` is not in the schema, and then no row is produced |
| FeatureRows.RowColumnsAreSchema | ml_prediction/predict_gdp.py:57-66 | the produced row's columns equal the schema, in order |
| FeatureRows.RowCellsCopyRequest | ml_prediction/predict_gdp.py:33-66 | Year holds the requested year and each lag column the request's lag value unchanged; columns that are neither seeds nor `Country_` are False |
| FeatureRows.ExactlyOneCountryColumnTrue | ml_prediction/predict_gdp.py:40-48 | for a schema without repeated names, exactly one `Country_` cell is True, and it is the requested country's; every other `Country_` cell is False |
| PredictApp.TrainedFeatureColumnsAsListed | predict_app.py:21-26 | the schema is "Year", "GDP_lag_1", "GDP_lag_2", "GDP_lag_3" followed by the fifteen `Country_` names exactly as the literal lists them |
| PredictApp.TrainedCountryColumnsAsListed | predict_app.py:22-26 | the one-hot part of the schema is the fifteen `Country_` names exactly as the literal lists them |
| PredictApp.TrainedCountriesAscending | predict_app.py:21-26 | the fifteen country names behind the one-hot columns are in strictly ascending string order |
| PredictApp.TrainedFeatureColumnsLayout | predict_app.py:21-26 | the schema has 19 columns: Year and the three lags, then one `Country_` column per country in order, and no name repeats |
| PredictApp.TrainedCountryColumns | predict_app.py:21-26 | `Country_<name>` is in the schema exactly when the name is one of the fifteen countries |
| PredictApp.ErrorResponse | predict_app.py:66-72 | an exception becomes a body holding only `error` with a string; the status is 500 for an exception outside KeyError, ValueError and FileNotFoundError and 400 for those three |
| PredictApp.Predict | predict_app.py:52-72 | every answer is 200, 400 or 500; a 200 body has exactly `country`, `prediction_year` and `predicted_gdp`, any other body exactly `error` |
| PredictApp.StatusCodes | predict_app.py:66-72 | every response is 200, 400 or 500; an error answers 500 exactly when it is not a KeyError, ValueError or FileNotFoundError |
| PredictApp.MissingRequestFieldIs400 | predict_app.py:52-67 | a missing `country_name`, `prediction_year` or `gdp_lags` answers 400 "Missing data field: '<first missing>'" |
| PredictApp.MissingLagIs400 | predict_app.py:57-67 | a lag key missing from `gdp_lags` answers 400 naming the first missing lag |
| PredictApp.MissingModelFileIs400 | predict_app.py:68-69 | with no model file the answer is 400 with the file error's text, whatever the country |
| PredictApp.UnknownCountryIs400 | predict_app.py:68-69 | a country outside the fifteen answers 400 with the "not present in the training data" text |
| PredictApp.UnexpectedErrorIs500 | predict_app.py:57-72 | any other exception the prediction raises (the regressor's, the IndexError of an empty prediction, the TypeError of a non-dict `gdp_lags`) answers 500 "An unexpected error occurred: <text>" |
| PredictApp.NonObjectBodyIs500 | predict_app.py:52-72 | a request body that is not a JSON object fails at the first subscript and answers 500 |
| PredictApp.EmptyPredictionIs500 | ml_prediction/predict_gdp.py:68-70 | a regressor returning no prediction makes `[0]` raise IndexError, answered with 500 carrying its text |
| PredictApp.NonObjectLagsIs500 | ml_prediction/predict_gdp.py:35 | a `gdp_lags` that is not a dict raises TypeError at its first subscript, answered with 500 |
| PredictApp.SuccessEchoesRequest | predict_app.py:61-65 | a 200 body has exactly `country`, `prediction_year` and `predicted_gdp`; the first two echo the request and the third is the builder's prediction |
| PredictApp.UnitedStatesRequestSucceeds | predict_app.py:52-65 | given a regressor that returns a prediction, a complete request for "United States" answers 200 with exactly `country` "United States", `prediction_year` 2023 and a `predicted_gdp` |
| PredictApp.AtlantisRequestRejected | predict_app.py:57-69 | a complete request for "Atlantis" answers 400 saying it was not present in the training data |
| TextOrder.InsertUnique | train_model.py:83 | inserting a name into a strictly ascending list keeps it strictly ascending and adds exactly that name |
| TextOrder.StrictlySortedUnique | train_model.py:83 | two strictly ascending lists with the same names are equal |
| TrainingRecords.Len | train_model.py:34 | `len()` succeeds exactly on a string, list or dict and raises TypeError on anything else |
| TrainingRecords.SelectPayload | train_model.py:32-40 | the records are `data[1]` when the response has more than one element and `len()` accepts it; a null, boolean or number there raises the TypeError of `len()`; an empty list when the response is shorter or the request failed |
| TrainingRecords.ParseInt | train_model.py:47 | `int()` of a string succeeds exactly for an optionally signed digit string, with the sign of the result following the sign character; otherwise ValueError "invalid literal for int() with base 10" |
| TrainingRecords.Truncate | train_model.py:47 | `int()` of a float rounds toward zero: the result is within one of the value and never farther from zero |
| TrainingRecords.ToInt | train_model.py:47 | `int()` succeeds exactly for ints, bools, floats and integer literal strings, and gives an int unchanged |
| TrainingRecords.ParseDecimal | train_model.py:47 | parsing the decimal text of any integer gives that integer back |
| TrainingRecords.ParseRecord | train_model.py:46-49 | a record parses exactly when `country.value` and `date` exist and `date` converts with `int()`, `value` exists, and the row is (country value, int(date), value); otherwise the error is the first in evaluation order: TypeError for a non-dict record, KeyError `country`, TypeError for a non-dict `country`, KeyError `value` inside it, KeyError `date`, the `int()` error, KeyError `value` |
| TrainingRecords.ParseAllSpec | train_model.py:44-49 | parsing succeeds exactly when every record parses, giving one row per record in input order; otherwise it raises the error of the first failing record |
| TrainingRecords.ParseRecords | train_model.py:44-49 | the appending loop yields the same rows, or the same first error, as `ParseAll` |
| TrainingRecords.Iterated | train_model.py:43-45 | a truthy payload is iterated as records only when it is a list; any other truthy value fails |
| TrainingRecords.LoadRows | train_model.py:32-55 | the `len()` error of the payload is raised; otherwise the frame is empty exactly when the selected payload is a falsy string, list or dict |
| TrainingRecords.WorldBankRecordParses | train_model.py:45-49 | a World Bank record for the United States in 2022 parses to ("United States", 2022, its value) |
| TrainingClean.AsRecord | train_model.py:49-51 | a row is typed when its country is a string and its GDP null or numeric; a null GDP becomes missing, a number is kept |
| TrainingClean.AsRecords | train_model.py:51 | the frame has one typed row per parsed row, in order |
| TrainingClean.Insert | train_model.py:61 | inserting a row into a sorted frame keeps it sorted and adds exactly that row |
| TrainingClean.SortRecords | train_model.py:61 | the sorted frame is ordered by (Country, Year) and is a permutation of the input |
| TrainingClean.LastKnownIsNearest | train_model.py:65 | the last known GDP of a country is the GDP of its nearest row that has one, and missing exactly when none has one |
| TrainingClean.FillFromSpec | train_model.py:65 | the single pass that carries the last GDP per country fills each row with the last GDP of its country at or before it |
| TrainingClean.FillForward | train_model.py:65 | the forward fill keeps one row per row; `FillForwardSpec` gives each row's contents |
| TrainingClean.FillForwardSpec | train_model.py:65 | the forward fill keeps country and year and gives each row the last GDP of its country up to and including it |
| TrainingClean.FillForwardFillsFromNearest | train_model.py:65 | a known GDP is kept; a null one takes the nearest earlier GDP of the same country; it stays null exactly when no row of that country up to it has a GDP |
| TrainingClean.DropMissingGdp | train_model.py:69 | the kept observations are exactly the rows that have a GDP |
| TrainingClean.DropMissingGdpAppend | train_model.py:69 | dropping is a filter: the result for a concatenation is the results for its parts, in order |
| TrainingClean.DropMissingGdpSingle | train_model.py:69 | a single row is kept, as its observation, exactly when it has a GDP |
| TrainingClean.DropMissingGdpKeepsOrder | train_model.py:61-69 | dropping rows keeps the (Country, Year) order |
| TrainingClean.CleanKeepsKnownRows | train_model.py:65-69 | a row whose country has a GDP at or before it survives the fill and drop with a GDP taken from such a row |
| TrainingClean.CleanDropsUnknownRows | train_model.py:65-69 | a row whose country has no GDP at or before it contributes nothing: the cleaned frame is what the rows before and after it contribute |
| TrainingShift.Lag | train_model.py:74-76 | the k-th lag of a row is missing exactly when fewer than k earlier rows are of its country |
| TrainingShift.Lead | train_model.py:73 | the target of a row is missing exactly when no later row is of its country |
| TrainingShift.ShiftColumns | train_model.py:73-76 | the shift keeps one row per observation, with its country, year and GDP |
| TrainingShift.ShiftColumnsEdges | train_model.py:73-76 | a row's target is missing exactly when no later row has its country, and its k-th lag exactly when fewer than k earlier rows have it |
| TrainingShift.ConsecutiveRowsAgree | train_model.py:73-76 | for consecutive rows of one country, the first row's target is the second row's GDP, and the second row's lags are the first row's GDP and lags shifted by one |
| TrainingShift.DropIncomplete | train_model.py:80 | the kept samples are exactly the rows with target and all three lags present |
| TrainingShift.DropIncompleteAppend | train_model.py:80 | dropping is a filter: the result for a concatenation is the results for its parts, in order |
| TrainingShift.DropIncompleteSingle | train_model.py:80 | a single row is kept, as its sample, exactly when its target and three lags are present |
| TrainingShift.SamplesPerCountry | train_model.py:73-80 | a country with n observations keeps exactly max(n - 4, 0) samples |
| TrainingEncode.Categories | train_model.py:83 | the dummy categories are strictly ascending and are exactly the countries of the samples |
| TrainingEncode.OneHot | train_model.py:83 | one encoded row per sample; `OneHotExactlyOneTrue` gives each row's layout |
| TrainingEncode.OneHotExactlyOneTrue | train_model.py:83 | each encoded row has the frame's columns and exactly one True `Country_` cell, the one of its own country |
| TrainingEncode.DropColumns | train_model.py:89 | dropping leaves no cell of a dropped column and never lengthens the row |
| TrainingEncode.DropNames | train_model.py:89 | dropping names leaves only kept names of the original list |
| TrainingEncode.ColumnsOfDropped | train_model.py:89 | dropping cells and dropping their names give the same column list |
| TrainingEncode.Lookup | train_model.py:88 | a column lookup succeeds exactly when the row has the column, and returns a cell of that column |
| TrainingEncode.SplitFeaturesTarget | train_model.py:88-89 | X and y have one row per row of the frame |
| TrainingEncode.EncodedFeatures | train_model.py:83-89 | removing GDP and GDP_next_year from an encoded row leaves Year, the three lags and the dummies, and its GDP_next_year cell is the sample's target |
| TrainingEncode.FeatureColumnsOfEncoded | train_model.py:88-89 | the feature columns are all encoded columns except GDP and GDP_next_year: Year, the lags, then the dummy columns |
| TrainingEncode.SplitColumns | train_model.py:83-89 | X's columns are the feature columns, each X row holds its sample's year, lags and dummies, and y holds each sample's target |
| TrainingEncode.PrepareTrainingData | train_model.py:32-89 | the `len()` error of the payload stops the script; otherwise it has nothing to train on exactly when the selected payload is a falsy string, list or dict |
| TrainingEncode.EmptyQueryRaises | train_model.py:33-34 | a `[meta, null]` answer stops the script with "object of type 'NoneType' has no len()" rather than reaching "Cannot proceed" |
| TrainingEncode.PreparedShape | train_model.py:43-89 | prepared data has strictly ascending categories, feature columns fixed by them, one float target per X row, and every X row laid out in the feature columns |
| SchemaAgreement.PredictionRowIsTrainingRow | ml_prediction/predict_gdp.py:33-66 | a request with a training sample's country, year and lags, built against the training feature columns, gives exactly that sample's X row |
| SchemaAgreement.TrainedColumnsMatchTraining | predict_app.py:20-26 | when the surviving countries are the fifteen listed ones, the categories are those names in listed order and the feature columns are `trained_feature_columns` |
| SchemaAgreement.TrainingRowsArePredictionRows | train_model.py:83-89 | under the same condition, every X row equals the row the prediction side builds against `trained_feature_columns` for that row's country, year and lags |
| Dashboard.FindIndex | visual.js:152 | the result is the first index whose code matches, or -1 exactly when none matches |
| Dashboard.Toggled | visual.js:152-162 | a click on a selected code removes one entry; on an unselected code it pushes `{code, name}` at the end |
| Dashboard.Selection.constructor | visual.js:2 | the selection starts empty |
| Dashboard.Selection.Toggle | visual.js:152-162 | the list becomes the toggled list; unique codes stay unique; with unique codes the country is selected afterwards exactly when it was not before |
| Dashboard.Selection.Clear | visual.js:191 | the selection becomes empty |
| Dashboard.ToggleAppendsUnselected | visual.js:158-160 | clicking an unselected country appends `{code, name}` and leaves the existing entries unchanged |
| Dashboard.ToggleRemovesSelected | visual.js:152-156 | clicking a selected country removes its one entry; the others keep their relative order and the code is no longer selected |
| Dashboard.TogglingKeepsCodesUnique | visual.js:152-162 | a toggle keeps the codes unique |
| Dashboard.ToggleFlipsSelected | visual.js:152-162 | with unique codes, the country is selected after a click exactly when it was not before |
| Dashboard.ToggleTwiceRestores | visual.js:152-162 | clicking an unselected country twice gives back the original list |
| Dashboard.LastWithValueIsLatest | visual.js:49 | the latest reading is the highest-index point with a non-null value, and missing exactly when every value is null |
| Dashboard.FirstOfReverseIsLast | visual.js:49 | the first non-null point of the reversed array is the last non-null point of the original |
| Dashboard.ReverseInPlace | visual.js:49 | `reverse()` leaves the array holding the old contents in reverse order |
| Dashboard.Find | visual.js:49 | the scan returns the first point whose value is non-null, or nothing when every value is null |
| Dashboard.LatestReading | visual.js:49 | the array is reversed in place, and the point found is the last point of the original array with a non-null value |
| Dashboard.PieSlice | visual.js:47-53 | a country gets a slice exactly when some point of its array has a value, and the slice carries its name |
| Dashboard.PieValueIsLatest | visual.js:47-53 | the slice value is the value of the last point whose value is non-null |
| Dashboard.PieSlices | visual.js:43-55 | the slices are exactly those of the selected countries that have one |
| Dashboard.SeriesTrace | visual.js:84-94 | a trace's x and y have the array's length and hold its dates and values in reverse order |
| Dashboard.SeriesTraces | visual.js:78-97 | the traces are exactly those of the selected countries whose array is non-empty |
| Dashboard.UpdateChart | visual.js:24-110 | the panel is only hidden, with nothing drawn, exactly when the selection is empty; a pie is drawn exactly when something is selected and the chart type is "pie" |

## Left out

- Network I/O: the World Bank fetch and its `RequestException` handling (the failed request is the `None` response), the dashboard's `fetch` calls and the API proxy in app.py.
- Model training, the 80/20 split, the random forest and `joblib` load and dump. The regressor is an uninterpreted function parameter.
- Flask route wiring, static file serving, CORS and logging.
- DOM, d3 map rendering, Plotly drawing, tooltips and panel visibility classes in visual.js, and everything in script.js and predict.js (including predict.js's float parsing and formatting).
- test_imports.py and test_predict_endpoint.py are environment smoke checks with no assertions.
- Dashboard.PieSlices: slices are in selection order. The source pushes them as the concurrent fetches complete (`Promise.all`), an order the model does not capture.
- Dashboard.SeriesTraces: traces are in selection order, not fetch completion order, for the same reason.
- TrainingClean.AsRecord: only frames with string country names and null or numeric GDP values are typed. Any other frame is reported as `Unsupported` instead of following pandas' object-column behaviour.
- TrainingRecords.ParseInt: leading and trailing whitespace, `_` digit separators and non-ASCII decimal digits, all of which Python's `int()` also accepts, are rejected. The message quotes the string plainly rather than with `repr`.
- TrainingRecords.SelectPayload: the decoded response is a list or nothing. A JSON object or other non-list top-level body, on which `len(data) > 1` and `data[1]` behave differently, is not modelled.
- TrainingRecords.Iterated: the TypeError messages for non-list payloads are simplified. Iterating a dict or string yields strings, and the first one fails at `record['country']`.
- TrainingClean.SortRecords: rows with the same (Country, Year) keep their input order. pandas does not promise an order for such ties, and the contract states only sortedness and permutation.
- PredictApp.Predict: `str()` of a non-string `country_name` is a parameter. The KeyError text is the key between single quotes, without Python's escaping of quotes inside the key.
- FeatureRows.AddMissingColumns: the iteration order of the missing-column set is a nondeterministic choice. The final reorder makes the result independent of it.
- Floating point: GDP values are `real`s. They are only copied, never computed, so NaN, infinities and rounding do not arise in the modelled steps.
