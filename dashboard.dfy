/** The country-selection state of the dashboard (visual.js): the list of
    selected countries that a click on the map toggles and the clear button
    empties, and what `updateChart` draws from the selection and the data
    fetched for each selected country. */
module Dashboard {
  import opened PyValues

  /** An entry of `selectedCountries`: `{code, name}`. */
  datatype Country = Country(code: string, name: string)

  /** `findIndex(c => c.code === code)`: the first index with that code, or -1. */
  function FindIndex(countries: seq<Country>, code: string): (i: int)
    ensures -1 <= i < |countries|
    ensures i >= 0 ==> countries[i].code == code && forall k :: 0 <= k < i ==> countries[k].code != code
    ensures i == -1 <==> forall k :: 0 <= k < |countries| ==> countries[k].code != code
  {
    if countries == [] then -1
    else if countries[0].code == code then 0
    else
      var i := FindIndex(countries[1..], code);
      if i == -1 then -1 else i + 1
  }

  /** Some entry has the code. */
  predicate Selected(countries: seq<Country>, code: string)
  {
    exists k :: 0 <= k < |countries| && countries[k].code == code
  }

  /** No two entries share a code. */
  ghost predicate UniqueCodes(countries: seq<Country>)
  {
    forall i, j :: 0 <= i < j < |countries| ==> countries[i].code != countries[j].code
  }

  /** The list after a click on the country `code` named `name`: the entry
      with that code is spliced out if there is one, and otherwise
      `{code, name}` is pushed. */
  function Toggled(countries: seq<Country>, code: string, name: string): (toggled: seq<Country>)
    ensures Selected(countries, code) ==> |toggled| == |countries| - 1
    ensures !Selected(countries, code) ==> toggled == countries + [Country(code, name)]
  {
    var i := FindIndex(countries, code);
    if i > -1 then countries[..i] + countries[i + 1..] else countries + [Country(code, name)]
  }

  /** The global `selectedCountries`. */
  class Selection {
    var countries: seq<Country>

    constructor ()
      ensures countries == []
    {
      countries := [];
    }

    /** The click handler's update of the selection (visual.js:152-162). */
    method Toggle(code: string, name: string)
      modifies this
      ensures countries == Toggled(old(countries), code, name)
      ensures UniqueCodes(old(countries)) ==> UniqueCodes(countries)
      ensures UniqueCodes(old(countries)) ==> (Selected(countries, code) <==> !Selected(old(countries), code))
    {
      var selectedIndex := FindIndex(countries, code);
      if selectedIndex > -1 {
        countries := countries[..selectedIndex] + countries[selectedIndex + 1..];
      } else {
        countries := countries + [Country(code, name)];
      }
      if UniqueCodes(old(countries)) {
        TogglingKeepsCodesUnique(old(countries), code, name);
      }
      ToggleFlipsSelected(old(countries), code, name);
    }

    /** The clear button's handler (visual.js:191). */
    method Clear()
      modifies this
      ensures countries == []
    {
      countries := [];
    }
  }

  // ---------------------------------------------------------------------
  // Properties of the toggle

  /** Clicking an unselected country appends it and leaves the existing
      entries as they were. */
  lemma ToggleAppendsUnselected(countries: seq<Country>, code: string, name: string)
    requires !Selected(countries, code)
    ensures Toggled(countries, code, name) == countries + [Country(code, name)]
    ensures Toggled(countries, code, name)[..|countries|] == countries
  {
    assert FindIndex(countries, code) == -1;
  }

  /** Clicking a selected country removes its one entry; the others keep
      their relative order. */
  lemma ToggleRemovesSelected(countries: seq<Country>, code: string, name: string)
    requires UniqueCodes(countries) && Selected(countries, code)
    ensures var i := FindIndex(countries, code);
      && 0 <= i < |countries| && countries[i].code == code
      && Toggled(countries, code, name) == countries[..i] + countries[i + 1..]
      && |Toggled(countries, code, name)| == |countries| - 1
      && !Selected(Toggled(countries, code, name), code)
  {
    var i := FindIndex(countries, code);
    var rest := countries[..i] + countries[i + 1..];
    forall k | 0 <= k < |rest|
      ensures rest[k].code != code
    {
      if k < i {
        assert rest[k] == countries[k];
      } else {
        assert rest[k] == countries[k + 1];
      }
    }
  }

  /** A toggle keeps the codes unique. */
  lemma TogglingKeepsCodesUnique(countries: seq<Country>, code: string, name: string)
    requires UniqueCodes(countries)
    ensures UniqueCodes(Toggled(countries, code, name))
  {
    var i := FindIndex(countries, code);
    var r := Toggled(countries, code, name);
    if i > -1 {
      forall a, b | 0 <= a < b < |r|
        ensures r[a].code != r[b].code
      {
        var a' := if a < i then a else a + 1;
        var b' := if b < i then b else b + 1;
        assert r[a] == countries[a'] && r[b] == countries[b'];
      }
    }
  }

  /** After a click the country is selected exactly when it was not. */
  lemma ToggleFlipsSelected(countries: seq<Country>, code: string, name: string)
    ensures UniqueCodes(countries) ==>
      (Selected(Toggled(countries, code, name), code) <==> !Selected(countries, code))
    ensures !Selected(countries, code) ==> Selected(Toggled(countries, code, name), code)
  {
    if !Selected(countries, code) {
      ToggleAppendsUnselected(countries, code, name);
      assert Toggled(countries, code, name)[|countries|].code == code;
    } else if UniqueCodes(countries) {
      ToggleRemovesSelected(countries, code, name);
    }
  }

  /** Clicking an unselected country twice gives back the original list. */
  lemma ToggleTwiceRestores(countries: seq<Country>, code: string, name: string, name': string)
    requires !Selected(countries, code)
    ensures Toggled(Toggled(countries, code, name), code, name') == countries
  {
    var once := countries + [Country(code, name)];
    ToggleAppendsUnselected(countries, code, name);
    assert FindIndex(once, code) == |countries| by {
      assert once[|countries|].code == code;
      assert forall k :: 0 <= k < |countries| ==> once[k].code != code;
    }
    assert once[..|countries|] == countries;
  }

  // ---------------------------------------------------------------------
  // The data behind a chart

  /** One element of the JSON array fetched for a country: a year and a
      value that may be null. */
  datatype Point = Point(date: string, value: Option<real>)

  /** The array in reverse order. */
  function Reverse<T>(s: seq<T>): (r: seq<T>)
    ensures |r| == |s|
  {
    seq(|s|, i requires 0 <= i < |s| => s[|s| - 1 - i])
  }

  /** `find(d => d.value !== null)`: the first point with a value. */
  function FirstWithValue(points: seq<Point>): Option<Point>
  {
    if points == [] then None
    else if points[0].value.Some? then Some(points[0])
    else FirstWithValue(points[1..])
  }

  /** The last point that has a value: the most recent year with data. */
  function LastWithValue(points: seq<Point>): Option<Point>
  {
    if points == [] then None
    else if points[|points| - 1].value.Some? then Some(points[|points| - 1])
    else LastWithValue(points[..|points| - 1])
  }

  lemma {:induction false} FirstWithValueAt(points: seq<Point>, k: int)
    requires 0 <= k <= |points|
    requires forall m :: 0 <= m < k ==> points[m].value.None?
    ensures FirstWithValue(points) == if k == |points| then None
                                      else if points[k].value.Some? then Some(points[k])
                                      else FirstWithValue(points[k + 1..])
  {
    if k > 0 {
      FirstWithValueAt(points[1..], k - 1);
      if k < |points| {
        assert points[1..][k..] == points[k + 1..];
      }
    }
  }

  /** `LastWithValue` is the point of highest index that has a value, and
      None exactly when no point has one. */
  lemma {:induction false} LastWithValueIsLatest(points: seq<Point>)
    ensures LastWithValue(points).None? <==> forall k :: 0 <= k < |points| ==> points[k].value.None?
    ensures LastWithValue(points).Some? ==>
      exists k :: 0 <= k < |points| && points[k] == LastWithValue(points).value && points[k].value.Some?
        && forall m :: k < m < |points| ==> points[m].value.None?
  {
    if points != [] {
      var n := |points| - 1;
      LastWithValueIsLatest(points[..n]);
      if points[n].value.None? && LastWithValue(points[..n]).Some? {
        var k :| 0 <= k < n && points[..n][k] == LastWithValue(points[..n]).value && points[..n][k].value.Some?
                 && forall m :: k < m < n ==> points[..n][m].value.None?;
        assert points[k] == LastWithValue(points).value;
      }
    }
  }

  /** Searching the reversed array from the front finds the last point with
      a value. */
  lemma {:induction false} FirstOfReverseIsLast(points: seq<Point>)
    ensures FirstWithValue(Reverse(points)) == LastWithValue(points)
  {
    if points != [] {
      var n := |points| - 1;
      var r := Reverse(points);
      assert r[0] == points[n];
      if points[n].value.None? {
        assert r[1..] == Reverse(points[..n]);
        FirstOfReverseIsLast(points[..n]);
      }
    }
  }

  /** `Array.prototype.reverse`: the array is reversed in place. */
  method ReverseInPlace(data: array<Point>)
    modifies data
    ensures data[..] == Reverse(old(data[..]))
  {
    ghost var original := data[..];
    ghost var n := data.Length;
    var i, j := 0, data.Length - 1;
    while i < j
      invariant 0 <= i <= j + 1 <= n && i + j == n - 1
      invariant forall k :: 0 <= k < i ==> data[k] == original[n - 1 - k]
      invariant forall k :: j < k < n ==> data[k] == original[n - 1 - k]
      invariant forall k :: i <= k <= j ==> data[k] == original[k]
    {
      data[i], data[j] := data[j], data[i];
      i, j := i + 1, j - 1;
    }
    assert data[..] == Reverse(original);
  }

  /** `find(d => d.value !== null)` on an array: the first point with a
      value, found by a scan from the front. */
  method Find(data: array<Point>) returns (found: Option<Point>)
    ensures found == FirstWithValue(data[..])
  {
    var n := data.Length;
    var k := 0;
    while k < n && data[k].value.None?
      invariant 0 <= k <= n
      invariant forall m :: 0 <= m < k ==> data[m].value.None?
    {
      k := k + 1;
    }
    FirstWithValueAt(data[..], k);
    found := if k < n then Some(data[k]) else None;
  }

  /** `data.reverse().find(d => d.value !== null)` (visual.js:49): the array
      is reversed in place, then searched from the front, which finds the
      last point of the original order that has a value. */
  method LatestReading(data: array<Point>) returns (latestData: Option<Point>)
    modifies data
    ensures data[..] == Reverse(old(data[..]))
    ensures latestData == LastWithValue(old(data[..]))
  {
    ghost var original := data[..];
    ReverseInPlace(data);
    latestData := Find(data);
    FirstOfReverseIsLast(original);
  }

  // ---------------------------------------------------------------------
  // updateChart

  /** A slice of the pie: a country name and its latest value. */
  datatype Slice = Slice(name: string, value: real)

  /** A line or bar trace. */
  datatype Trace = Trace(x: seq<string>, y: seq<Option<real>>, kind: string, mode: Option<string>, name: string)

  /** What `updateChart` does with the panel and the chart. */
  datatype ChartUpdate =
    | HidePanel
    | PieChart(slices: seq<Slice>)
    | SeriesChart(traces: seq<Trace>)

  /** The pie slice of one country: none for an empty array or when every
      value is null. */
  function PieSlice(country: Country, data: seq<Point>): (s: Option<Slice>)
    ensures s.Some? <==> exists k :: 0 <= k < |data| && data[k].value.Some?
    ensures s.Some? ==> s.value.name == country.name
  {
    LastWithValueIsLatest(data);
    if |data| > 0 then
      match LastWithValue(data)
      case None => None
      case Some(p) => Some(Slice(country.name, p.value.value))
    else None
  }

  /** The trace of one country: the dates and values in reverse order. */
  function SeriesTrace(country: Country, data: seq<Point>, chartType: string): (t: Trace)
    ensures |t.x| == |t.y| == |data|
    ensures forall i :: 0 <= i < |data| ==>
      t.x[i] == data[|data| - 1 - i].date && t.y[i] == data[|data| - 1 - i].value
  {
    Trace(Reverse(seq(|data|, i requires 0 <= i < |data| => data[i].date)),
          Reverse(seq(|data|, i requires 0 <= i < |data| => data[i].value)),
          if chartType == "line" then "scatter" else "bar",
          if chartType == "line" then Some("lines+markers") else None,
          country.name)
  }

  /** The slices of the selected countries that have a value, in selection
      order. */
  function PieSlices(selected: seq<Country>, fetch: string -> seq<Point>): (slices: seq<Slice>)
    ensures |slices| <= |selected|
    ensures forall s :: s in slices <==>
      exists k :: 0 <= k < |selected| && PieSlice(selected[k], fetch(selected[k].code)) == Some(s)
  {
    if selected == [] then []
    else
      var n := |selected| - 1;
      var init := PieSlices(selected[..n], fetch);
      assert forall k :: 0 <= k < n ==> selected[..n][k] == selected[k];
      match PieSlice(selected[n], fetch(selected[n].code))
      case None => init
      case Some(s) => init + [s]
  }

  /** The traces of the selected countries whose array is non-empty, in
      selection order. */
  function SeriesTraces(selected: seq<Country>, fetch: string -> seq<Point>, chartType: string): (traces: seq<Trace>)
    ensures |traces| <= |selected|
    ensures forall t :: t in traces <==>
      exists k :: 0 <= k < |selected| && fetch(selected[k].code) != []
        && t == SeriesTrace(selected[k], fetch(selected[k].code), chartType)
  {
    if selected == [] then []
    else
      var n := |selected| - 1;
      var init := SeriesTraces(selected[..n], fetch, chartType);
      assert forall k :: 0 <= k < n ==> selected[..n][k] == selected[k];
      var data := fetch(selected[n].code);
      if |data| > 0 then init + [SeriesTrace(selected[n], data, chartType)] else init
  }

  /** `updateChart()`: with nothing selected the panel is hidden and
      nothing is fetched; otherwise a pie of latest values or one trace per
      country. `fetch` gives the array served for a country code and the
      current indicator. */
  function UpdateChart(selected: seq<Country>, chartType: string, fetch: string -> seq<Point>): (u: ChartUpdate)
    ensures u.HidePanel? <==> selected == []
    ensures u.PieChart? <==> selected != [] && chartType == "pie"
  {
    if |selected| == 0 then HidePanel
    else if chartType == "pie" then PieChart(PieSlices(selected, fetch))
    else SeriesChart(SeriesTraces(selected, fetch, chartType))
  }

  /** The pie value of a country is the value of the last point of its
      array that has one. */
  lemma PieValueIsLatest(country: Country, data: seq<Point>)
    requires PieSlice(country, data).Some?
    ensures exists k :: 0 <= k < |data| && data[k].value == Some(PieSlice(country, data).value.value)
                        && forall m :: k < m < |data| ==> data[m].value.None?
  {
    LastWithValueIsLatest(data);
  }
}
