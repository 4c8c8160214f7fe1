/** Steps 3 and 4 of train_model.py: picking the record list out of the
    decoded World Bank response and parsing each record into a
    (Country, Year, GDP) row. */
module TrainingRecords {
  import opened PyValues

  /** The decoded API response: `None` when the request raised, otherwise
      the top-level JSON list. */
  type Fetched = Option<seq<Value>>

  /** A value `len()` accepts: a string, list or dict. */
  predicate Sized(v: Value)
  {
    v.Str? || v.List? || v.Dict?
  }

  /** Python's `len()`: the size of a string, list or dict, and TypeError
      for every other value. */
  function Len(v: Value): (r: Result<int>)
    ensures r.Ok? <==> Sized(v)
    ensures r.Ok? ==> r.value >= 0
    ensures r.Err? ==> r.error.OtherError?
  {
    match v
    case Str(s) => Ok(|s|)
    case List(items) => Ok(|items|)
    case Dict(entries) => Ok(|entries|)
    case Null => Err(OtherError("object of type 'NoneType' has no len()"))
    case Bool(_) => Err(OtherError("object of type 'bool' has no len()"))
    case Int(_) => Err(OtherError("object of type 'int' has no len()"))
    case Float(_) => Err(OtherError("object of type 'float' has no len()"))
  }

  /** `gdp_data`: the second element of the response when it has more than
      one element, and an empty list otherwise (also when the request
      failed). Printing its count calls `len()` on it, which raises outside
      the `RequestException` handler when it is not a string, list or dict. */
  function SelectPayload(fetched: Fetched): (r: Result<Value>)
    ensures r.Err? <==> fetched.Some? && |fetched.value| > 1 && !Sized(fetched.value[1])
    ensures r.Err? ==> r == Err(Len(fetched.value[1]).error)
    ensures fetched.Some? && |fetched.value| > 1 && Sized(fetched.value[1]) ==> r == Ok(fetched.value[1])
    ensures fetched.None? || |fetched.value| <= 1 ==> r == Ok(List([]))
  {
    match fetched
    case None => Ok(List([]))
    case Some(data) =>
      if |data| > 1 then
        match Len(data[1])
        case Err(e) => Err(e)
        case Ok(_) => Ok(data[1])
      else Ok(List([]))
  }

  // ---------------------------------------------------------------------
  // int()

  predicate IsDigit(ch: char)
  {
    '0' <= ch <= '9'
  }

  predicate AllDigits(s: string)
  {
    forall i :: 0 <= i < |s| ==> IsDigit(s[i])
  }

  /** The number a string of decimal digits denotes. */
  function DigitsValue(s: string): nat
    requires AllDigits(s)
  {
    if s == [] then 0 else DigitsValue(s[..|s| - 1]) * 10 + (s[|s| - 1] - '0') as int
  }

  /** The digits after an optional leading sign. */
  function Unsigned(s: string): string
  {
    if s != [] && (s[0] == '-' || s[0] == '+') then s[1..] else s
  }

  /** A base-10 integer literal: an optional sign and at least one digit. */
  predicate IsIntLiteral(s: string)
  {
    Unsigned(s) != [] && AllDigits(Unsigned(s))
  }

  /** `int(s)` for a string. */
  function ParseInt(s: string): (r: Result<int>)
    ensures r.Ok? <==> IsIntLiteral(s)
    ensures r.Err? ==> r.error == ValueError("invalid literal for int() with base 10: '" + s + "'")
    ensures r.Ok? && s[0] == '-' ==> r.value <= 0
    ensures r.Ok? && s[0] != '-' ==> r.value >= 0
  {
    if !IsIntLiteral(s) then Err(ValueError("invalid literal for int() with base 10: '" + s + "'"))
    else
      var magnitude: int := DigitsValue(Unsigned(s));
      Ok(if s[0] == '-' then -magnitude else magnitude)
  }

  /** `int(r)` for a float: rounds toward zero. */
  function Truncate(r: real): (t: int)
    ensures r >= 0.0 ==> 0 <= t && t as real <= r < t as real + 1.0
    ensures r < 0.0 ==> t <= 0 && t as real - 1.0 < r <= t as real
  {
    if r >= 0.0 then r.Floor else -((-r).Floor)
  }

  /** The TypeError `int()` raises for an argument of another type. */
  function IntTypeErrorMessage(typeName: string): string
  {
    "int() argument must be a string, a bytes-like object or a real number, not '" + typeName + "'"
  }

  /** `int(v)` for a decoded JSON value. */
  function ToInt(v: Value): (r: Result<int>)
    ensures r.Ok? <==> v.Int? || v.Bool? || v.Float? || (v.Str? && IsIntLiteral(v.s))
    ensures v.Int? ==> r == Ok(v.i)
    ensures v.Str? ==> r == ParseInt(v.s)
  {
    match v
    case Int(i) => Ok(i)
    case Bool(b) => Ok(if b then 1 else 0)
    case Float(x) => Ok(Truncate(x))
    case Str(s) => ParseInt(s)
    case Null => Err(OtherError(IntTypeErrorMessage("NoneType")))
    case List(_) => Err(OtherError(IntTypeErrorMessage("list")))
    case Dict(_) => Err(OtherError(IntTypeErrorMessage("dict")))
  }

  /** The decimal digits of a natural number, without leading zeros. */
  function Digits(n: nat): (s: string)
    ensures s != [] && AllDigits(s)
  {
    var last := ['0' + (n % 10) as char];
    if n < 10 then last else Digits(n / 10) + last
  }

  /** How `str(n)` writes an integer. */
  function Decimal(n: int): string
  {
    if n < 0 then "-" + Digits(-n) else Digits(n)
  }

  lemma {:induction false} DigitsRoundTrip(n: nat)
    ensures DigitsValue(Digits(n)) == n
  {
    var s := Digits(n);
    if n >= 10 {
      assert s[..|s| - 1] == Digits(n / 10);
      DigitsRoundTrip(n / 10);
    }
  }

  /** `int(str(n)) == n` for every integer: the year strings of the API
      parse back to the year they were written from. */
  lemma ParseDecimal(n: int)
    ensures ParseInt(Decimal(n)) == Ok(n)
  {
    if n < 0 {
      assert Unsigned(Decimal(n)) == Digits(-n);
      DigitsRoundTrip(-n);
    } else {
      assert Unsigned(Decimal(n)) == Digits(n);
      DigitsRoundTrip(n);
    }
  }

  // ---------------------------------------------------------------------
  // Records

  /** One element of `parsed_data`: `{'Country': ..., 'Year': ..., 'GDP': ...}`. */
  datatype ParsedRow = ParsedRow(country: Value, year: int, gdp: Value)

  /** The body of the parsing loop for one record: `record['country']['value']`,
      `int(record['date'])` and `record['value']`, evaluated in that order. */
  function ParseRecord(record: Value): (r: Result<ParsedRow>)
    ensures r.Ok? <==>
      && record.Dict? && "country" in record.entries && "date" in record.entries && "value" in record.entries
      && record.entries["country"].Dict? && "value" in record.entries["country"].entries
      && ToInt(record.entries["date"]).Ok?
    ensures r.Ok? ==> r.value == ParsedRow(record.entries["country"].entries["value"],
                                          ToInt(record.entries["date"]).value, record.entries["value"])
    ensures !record.Dict? ==> r.Err? && r.error.OtherError?
    ensures record.Dict? && "country" !in record.entries ==> r == Err(KeyError("country"))
    ensures record.Dict? && "country" in record.entries && !record.entries["country"].Dict? ==>
      r.Err? && r.error.OtherError?
    ensures record.Dict? && "country" in record.entries && record.entries["country"].Dict?
            && "value" !in record.entries["country"].entries ==>
      r == Err(KeyError("value"))
    ensures record.Dict? && "country" in record.entries && record.entries["country"].Dict?
            && "value" in record.entries["country"].entries && "date" !in record.entries ==>
      r == Err(KeyError("date"))
    ensures record.Dict? && "country" in record.entries && "date" in record.entries
            && record.entries["country"].Dict? && "value" in record.entries["country"].entries
            ==> (ToInt(record.entries["date"]).Err? ==> r == Err(ToInt(record.entries["date"]).error))
    ensures record.Dict? && "country" in record.entries && "date" in record.entries
            && record.entries["country"].Dict? && "value" in record.entries["country"].entries
            && ToInt(record.entries["date"]).Ok? && "value" !in record.entries ==>
      r == Err(KeyError("value"))
  {
    match Subscript(record, "country")
    case Err(e) => Err(e)
    case Ok(country) =>
      match Subscript(country, "value")
      case Err(e) => Err(e)
      case Ok(countryName) =>
        match Subscript(record, "date")
        case Err(e) => Err(e)
        case Ok(date) =>
          match ToInt(date)
          case Err(e) => Err(e)
          case Ok(year) =>
            match Subscript(record, "value")
            case Err(e) => Err(e)
            case Ok(gdpValue) => Ok(ParsedRow(countryName, year, gdpValue))
  }

  /** The parsed rows of `records` in order, or the first record's error. */
  function ParseAll(records: seq<Value>): Result<seq<ParsedRow>>
  {
    if records == [] then Ok([])
    else
      match ParseAll(records[..|records| - 1])
      case Err(e) => Err(e)
      case Ok(rows) =>
        match ParseRecord(records[|records| - 1])
        case Err(e) => Err(e)
        case Ok(row) => Ok(rows + [row])
  }

  /** Parsing succeeds exactly when every record parses; the rows are then
      the records' rows one for one, and otherwise the error is the one
      of the first record that fails. */
  lemma {:induction false} ParseAllSpec(records: seq<Value>)
    ensures ParseAll(records).Ok? <==> forall i :: 0 <= i < |records| ==> ParseRecord(records[i]).Ok?
    ensures ParseAll(records).Ok? ==>
      && |ParseAll(records).value| == |records|
      && forall i :: 0 <= i < |records| ==> ParseAll(records).value[i] == ParseRecord(records[i]).value
    ensures ParseAll(records).Err? ==>
      exists k :: 0 <= k < |records| && ParseRecord(records[k]).Err?
        && ParseAll(records).error == ParseRecord(records[k]).error
        && forall i :: 0 <= i < k ==> ParseRecord(records[i]).Ok?
  {
    if records != [] {
      var n := |records| - 1;
      var init := records[..n];
      ParseAllSpec(init);
      assert records == init + [records[n]];
      var last := ParseRecord(records[n]);
      if ParseAll(init).Err? {
        var k :| 0 <= k < n && ParseRecord(init[k]).Err? && ParseAll(init).error == ParseRecord(init[k]).error
                 && forall i :: 0 <= i < k ==> ParseRecord(init[i]).Ok?;
        assert init[k] == records[k];
        assert forall i :: 0 <= i < k ==> init[i] == records[i];
      } else {
        forall i | 0 <= i < n
          ensures ParseRecord(records[i]).Ok?
        {
          assert init[i] == records[i];
        }
        if last.Ok? {
          var rows := ParseAll(init).value;
          assert ParseAll(records) == Ok(rows + [last.value]);
          forall i | 0 <= i < |records|
            ensures ParseAll(records).value[i] == ParseRecord(records[i]).value
          {
            if i < n {
              assert init[i] == records[i];
            }
          }
        }
      }
    }
  }

  /** An error in a prefix is the error of the whole list. */
  lemma {:induction false} ParsePrefixError(records: seq<Value>, m: nat)
    requires m <= |records|
    requires ParseAll(records[..m]).Err?
    ensures ParseAll(records) == ParseAll(records[..m])
  {
    if m < |records| {
      var n := |records| - 1;
      assert records[..n][..m] == records[..m];
      ParsePrefixError(records[..n], m);
    } else {
      assert records[..m] == records;
    }
  }

  /** The loop of step 4 that appends one row per record to `parsed_data`. */
  method ParseRecords(gdpData: seq<Value>) returns (r: Result<seq<ParsedRow>>)
    ensures r == ParseAll(gdpData)
  {
    var parsedData: seq<ParsedRow> := [];
    var i := 0;
    while i < |gdpData|
      invariant i <= |gdpData|
      invariant ParseAll(gdpData[..i]) == Ok(parsedData)
    {
      var record := gdpData[i];
      assert gdpData[..i + 1][..i] == gdpData[..i];
      match ParseRecord(record)
      case Err(e) =>
        ParsePrefixError(gdpData, i + 1);
        return Err(e);
      case Ok(row) =>
        parsedData := parsedData + [row];
      i := i + 1;
    }
    assert gdpData[..i] == gdpData;
    return Ok(parsedData);
  }

  /** The records the loop runs over when `gdp_data` is truthy: a list's
      elements. Iterating a dict or a string yields strings, and a string
      record fails at `record['country']`; other values are not iterable. */
  function Iterated(gdpData: Value): (r: Result<seq<Value>>)
    requires Truthy(gdpData)
    ensures r.Ok? <==> gdpData.List?
    ensures r.Ok? ==> r.value == gdpData.items && r.value != []
  {
    match gdpData
    case List(items) => Ok(items)
    case Dict(_) => Err(OtherError("string indices must be integers, not 'str'"))
    case Str(_) => Err(OtherError("string indices must be integers, not 'str'"))
    case Bool(_) => Err(OtherError("'bool' object is not iterable"))
    case Int(_) => Err(OtherError("'int' object is not iterable"))
    case Float(_) => Err(OtherError("'float' object is not iterable"))
  }

  /** Steps 3 and 4: the rows of `gdp_df`, an empty frame when `gdp_data`
      is falsy, and the `len()` error of step 3 passed on. */
  function LoadRows(fetched: Fetched): (r: Result<seq<ParsedRow>>)
    ensures r.Ok? && r.value == [] <==> SelectPayload(fetched).Ok? && !Truthy(SelectPayload(fetched).value)
    ensures SelectPayload(fetched).Err? ==> r == Err(SelectPayload(fetched).error)
  {
    match SelectPayload(fetched)
    case Err(e) => Err(e)
    case Ok(gdpData) =>
    if !Truthy(gdpData) then Ok([])
    else
      match Iterated(gdpData)
      case Err(e) => Err(e)
      case Ok(records) =>
        ParseAllSpec(records);
        ParseAll(records)
  }

  /** A World Bank record for the United States in 2022 parses to that row. */
  lemma WorldBankRecordParses(gdp: real)
    ensures ParseRecord(Dict(map["indicator" := Dict(map["id" := Str("NY.GDP.MKTP.CD")]),
                                 "country" := Dict(map["id" := Str("US"), "value" := Str("United States")]),
                                 "date" := Str("2022"), "value" := Float(gdp)]))
            == Ok(ParsedRow(Str("United States"), 2022, Float(gdp)))
  {
    assert Digits(2022) == "2022";
    ParseDecimal(2022);
  }
}
