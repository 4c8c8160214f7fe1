/** The first half of step 5 of train_model.py: the typed (Country, Year,
    GDP) frame, its sort by country then year, the forward fill of GDP
    within each country, and the removal of the rows still without GDP. */
module TrainingClean {
  import opened PyValues
  import opened TextOrder
  import opened TrainingRecords

  /** A row of `gdp_df`; a null GDP is `None`. */
  datatype Record = Record(country: string, year: int, gdp: Option<real>)

  /** A row after `dropna(subset=['GDP'])`: its GDP is known. */
  datatype Observation = Observation(country: string, year: int, gdp: real)

  /** The frame as the rest of the script reads it: a parsed row whose
      country is a string and whose GDP is null or a number. */
  function AsRecord(row: ParsedRow): (r: Option<Record>)
    ensures r.Some? <==> row.country.Str? && (row.gdp.Null? || row.gdp.Int? || row.gdp.Float?)
    ensures r.Some? ==> r.value.country == row.country.s && r.value.year == row.year
    ensures r.Some? ==> (r.value.gdp.None? <==> row.gdp.Null?)
    ensures r.Some? && row.gdp.Float? ==> r.value.gdp == Some(row.gdp.r)
    ensures r.Some? && row.gdp.Int? ==> r.value.gdp == Some(row.gdp.i as real)
  {
    if !row.country.Str? then None
    else
      match row.gdp
      case Null => Some(Record(row.country.s, row.year, None))
      case Int(i) => Some(Record(row.country.s, row.year, Some(i as real)))
      case Float(x) => Some(Record(row.country.s, row.year, Some(x)))
      case _ => None
  }

  /** `pd.DataFrame(parsed_data)`: one row per parsed row, in order. */
  function AsRecords(rows: seq<ParsedRow>): (r: Option<seq<Record>>)
    ensures r.Some? <==> forall i :: 0 <= i < |rows| ==> AsRecord(rows[i]).Some?
    ensures r.Some? ==> |r.value| == |rows| && forall i :: 0 <= i < |rows| ==> Some(r.value[i]) == AsRecord(rows[i])
  {
    if forall i :: 0 <= i < |rows| ==> AsRecord(rows[i]).Some? then
      Some(seq(|rows|, i requires 0 <= i < |rows| => AsRecord(rows[i]).value))
    else None
  }

  // ---------------------------------------------------------------------
  // sort_values(by=['Country', 'Year'])

  /** (c1, y1) sorts strictly before (c2, y2). */
  predicate KeyBefore(c1: string, y1: int, c2: string, y2: int)
  {
    Less(c1, c2) || (c1 == c2 && y1 < y2)
  }

  lemma KeyBeforeTransitive(c1: string, y1: int, c2: string, y2: int, c3: string, y3: int)
    requires KeyBefore(c1, y1, c2, y2) && KeyBefore(c2, y2, c3, y3)
    ensures KeyBefore(c1, y1, c3, y3)
  {
    if Less(c1, c2) && Less(c2, c3) {
      LessTransitive(c1, c2, c3);
    }
  }

  predicate RecordBefore(a: Record, b: Record)
  {
    KeyBefore(a.country, a.year, b.country, b.year)
  }

  /** No row sorts strictly before an earlier one. */
  ghost predicate SortedByKey(rows: seq<Record>)
  {
    forall i, j :: 0 <= i < j < |rows| ==> !RecordBefore(rows[j], rows[i])
  }

  /** A row that no later row sorts before can head a sorted frame. */
  lemma ConsSorted(head: Record, tail: seq<Record>)
    requires SortedByKey(tail)
    requires forall j :: 0 <= j < |tail| ==> !RecordBefore(tail[j], head)
    ensures SortedByKey([head] + tail)
  {
    var r := [head] + tail;
    forall i, j | 0 <= i < j < |r|
      ensures !RecordBefore(r[j], r[i])
    {
      assert r[j] == tail[j - 1];
      if i > 0 {
        assert r[i] == tail[i - 1];
      }
    }
  }

  /** A row sorting before the head of a sorted frame sorts before none of
      its rows' successors: no row of the frame sorts before it. */
  lemma NoneBeforeSmaller(x: Record, sorted: seq<Record>)
    requires SortedByKey(sorted) && sorted != [] && RecordBefore(x, sorted[0])
    ensures forall j :: 0 <= j < |sorted| ==> !RecordBefore(sorted[j], x)
  {
    forall j | 0 <= j < |sorted|
      ensures !RecordBefore(sorted[j], x)
    {
      if RecordBefore(sorted[j], x) {
        KeyBeforeTransitive(sorted[j].country, sorted[j].year, x.country, x.year,
                            sorted[0].country, sorted[0].year);
        LessIrreflexive(sorted[0].country);
      }
    }
  }

  /** After inserting a row that does not sort before the head into the
      rest of the frame, no row sorts before the head. */
  lemma NoneBeforeHead(x: Record, sorted: seq<Record>, tail: seq<Record>)
    requires SortedByKey(sorted) && sorted != [] && !RecordBefore(x, sorted[0])
    requires multiset(tail) == multiset(sorted[1..]) + multiset{x}
    ensures forall j :: 0 <= j < |tail| ==> !RecordBefore(tail[j], sorted[0])
  {
    forall j | 0 <= j < |tail|
      ensures !RecordBefore(tail[j], sorted[0])
    {
      assert tail[j] in multiset(tail);
      if tail[j] != x {
        assert tail[j] in multiset(sorted[1..]);
        var k :| 0 <= k < |sorted[1..]| && sorted[1..][k] == tail[j];
        assert sorted[k + 1] == tail[j];
      }
    }
  }

  /** Inserts `x` after every row that does not sort after it. */
  function Insert(x: Record, sorted: seq<Record>): (r: seq<Record>)
    requires SortedByKey(sorted)
    ensures SortedByKey(r)
    ensures multiset(r) == multiset(sorted) + multiset{x}
  {
    if sorted == [] then [x]
    else if RecordBefore(x, sorted[0]) then
      NoneBeforeSmaller(x, sorted);
      ConsSorted(x, sorted);
      [x] + sorted
    else
      assert SortedByKey(sorted[1..]) by {
        forall i, j | 0 <= i < j < |sorted| - 1
          ensures !RecordBefore(sorted[1..][j], sorted[1..][i])
        {
          assert sorted[1..][j] == sorted[j + 1] && sorted[1..][i] == sorted[i + 1];
        }
      }
      var tail := Insert(x, sorted[1..]);
      NoneBeforeHead(x, sorted, tail);
      ConsSorted(sorted[0], tail);
      assert sorted == [sorted[0]] + sorted[1..];
      [sorted[0]] + tail
  }

  /** The frame sorted by (Country, Year): ordered, and the same rows. */
  function SortRecords(rows: seq<Record>): (r: seq<Record>)
    ensures SortedByKey(r)
    ensures multiset(r) == multiset(rows)
  {
    if rows == [] then []
    else
      assert rows == rows[..|rows| - 1] + [rows[|rows| - 1]];
      Insert(rows[|rows| - 1], SortRecords(rows[..|rows| - 1]))
  }

  // ---------------------------------------------------------------------
  // groupby('Country')['GDP'].ffill()

  /** The GDP of the last row of country `c` in `rows` that has one. */
  function LastKnown(rows: seq<Record>, c: string): Option<real>
  {
    if rows == [] then None
    else
      var r := rows[|rows| - 1];
      if r.country == c && r.gdp.Some? then r.gdp else LastKnown(rows[..|rows| - 1], c)
  }

  /** `LastKnown` is the value of the nearest row of `c` with a GDP, and
      None exactly when no row of `c` has one. */
  lemma {:induction false} LastKnownIsNearest(rows: seq<Record>, c: string)
    ensures LastKnown(rows, c).None? <==>
      forall j :: 0 <= j < |rows| && rows[j].country == c ==> rows[j].gdp.None?
    ensures LastKnown(rows, c).Some? ==>
      exists j :: 0 <= j < |rows| && rows[j].country == c && rows[j].gdp == LastKnown(rows, c)
        && forall k :: j < k < |rows| && rows[k].country == c ==> rows[k].gdp.None?
  {
    if rows != [] {
      var n := |rows| - 1;
      var init := rows[..n];
      LastKnownIsNearest(init, c);
      assert forall j :: 0 <= j < n ==> init[j] == rows[j];
      if !(rows[n].country == c && rows[n].gdp.Some?) && LastKnown(init, c).Some? {
        var j :| 0 <= j < n && init[j].country == c && init[j].gdp == LastKnown(init, c)
                 && forall k :: j < k < n && init[k].country == c ==> init[k].gdp.None?;
        assert rows[j].country == c && rows[j].gdp == LastKnown(rows, c);
      }
    }
  }

  /** `known` maps each country to the last GDP seen for it in `seen`. */
  ghost predicate KnownIs(known: map<string, real>, seen: seq<Record>)
  {
    forall c :: (c in known <==> LastKnown(seen, c).Some?)
                && (c in known ==> LastKnown(seen, c) == Some(known[c]))
  }

  /** One pass over the rows carrying the last GDP seen per country. */
  function FillFrom(rows: seq<Record>, known: map<string, real>): seq<Record>
  {
    if rows == [] then []
    else
      var r := rows[0];
      var gdp := if r.gdp.Some? then r.gdp else if r.country in known then Some(known[r.country]) else None;
      var known' := if gdp.Some? then known[r.country := gdp.value] else known;
      [r.(gdp := gdp)] + FillFrom(rows[1..], known')
  }

  lemma {:induction false} FillFromLength(rows: seq<Record>, known: map<string, real>)
    ensures |FillFrom(rows, known)| == |rows|
  {
    if rows != [] {
      var r := rows[0];
      var gdp := if r.gdp.Some? then r.gdp else if r.country in known then Some(known[r.country]) else None;
      FillFromLength(rows[1..], if gdp.Some? then known[r.country := gdp.value] else known);
    }
  }

  /** The GDP column after the forward fill. */
  function FillForward(rows: seq<Record>): (filled: seq<Record>)
    ensures |filled| == |rows|
  {
    FillFromLength(rows, map[]);
    FillFrom(rows, map[])
  }

  /** One more row seen: its GDP, or else the one known for its country,
      becomes the one known for its country. */
  lemma KnownStep(known: map<string, real>, seen: seq<Record>, r: Record)
    requires KnownIs(known, seen)
    ensures var gdp := if r.gdp.Some? then r.gdp else if r.country in known then Some(known[r.country]) else None;
      && LastKnown(seen + [r], r.country) == gdp
      && KnownIs(if gdp.Some? then known[r.country := gdp.value] else known, seen + [r])
  {
    var gdp := if r.gdp.Some? then r.gdp else if r.country in known then Some(known[r.country]) else None;
    var known' := if gdp.Some? then known[r.country := gdp.value] else known;
    var seen' := seen + [r];
    assert seen'[..|seen|] == seen;
    assert LastKnown(seen', r.country) == gdp;
    forall c
      ensures (c in known' <==> LastKnown(seen', c).Some?)
              && (c in known' ==> LastKnown(seen', c) == Some(known'[c]))
    {
    }
  }

  /** Row `i` of the one-pass fill carries the last GDP of its country
      among the rows seen so far and the rows up to it. */
  lemma {:induction false} FillFromAt(seen: seq<Record>, rows: seq<Record>, known: map<string, real>, i: int)
    requires KnownIs(known, seen)
    requires 0 <= i < |rows|
    decreases i
    ensures |FillFrom(rows, known)| == |rows|
    ensures FillFrom(rows, known)[i] == rows[i].(gdp := LastKnown(seen + rows[..i + 1], rows[i].country))
  {
    var r := rows[0];
    var gdp := if r.gdp.Some? then r.gdp else if r.country in known then Some(known[r.country]) else None;
    var known' := if gdp.Some? then known[r.country := gdp.value] else known;
    var seen' := seen + [r];
    KnownStep(known, seen, r);
    FillFromLength(rows, known);
    assert FillFrom(rows, known) == [r.(gdp := gdp)] + FillFrom(rows[1..], known');
    if i == 0 {
      assert seen + rows[..1] == seen';
    } else {
      FillFromAt(seen', rows[1..], known', i - 1);
      FillFromLater(seen, rows, i);
    }
  }

  lemma FillFromLater(seen: seq<Record>, rows: seq<Record>, i: int)
    requires 0 < i < |rows|
    ensures rows[1..][i - 1] == rows[i]
    ensures (seen + [rows[0]]) + rows[1..][..i - 1 + 1] == seen + rows[..i + 1]
  {
    assert rows[..i + 1] == [rows[0]] + rows[1..][..i];
  }

  lemma FillFromSpec(seen: seq<Record>, rows: seq<Record>, known: map<string, real>)
    requires KnownIs(known, seen)
    ensures |FillFrom(rows, known)| == |rows|
    ensures forall i :: 0 <= i < |rows| ==>
      FillFrom(rows, known)[i] == rows[i].(gdp := LastKnown(seen + rows[..i + 1], rows[i].country))
  {
    FillFromLength(rows, known);
    forall i | 0 <= i < |rows|
      ensures FillFrom(rows, known)[i] == rows[i].(gdp := LastKnown(seen + rows[..i + 1], rows[i].country))
    {
      FillFromAt(seen, rows, known, i);
    }
  }

  /** Every row keeps its country and year, and its GDP becomes the last GDP
      of its country at or before it. */
  lemma FillForwardSpec(rows: seq<Record>)
    ensures |FillForward(rows)| == |rows|
    ensures forall i :: 0 <= i < |rows| ==>
      FillForward(rows)[i] == rows[i].(gdp := LastKnown(rows[..i + 1], rows[i].country))
  {
    assert KnownIs(map[], []);
    FillFromSpec([], rows, map[]);
    forall i | 0 <= i < |rows|
      ensures FillForward(rows)[i] == rows[i].(gdp := LastKnown(rows[..i + 1], rows[i].country))
    {
      assert [] + rows[..i + 1] == rows[..i + 1];
    }
  }

  /** A known GDP is kept; a null one takes the GDP of the nearest earlier
      row of the same country that has one, and stays null exactly when
      there is none. */
  lemma FillForwardFillsFromNearest(rows: seq<Record>, i: int)
    requires 0 <= i < |rows|
    ensures |FillForward(rows)| == |rows|
    ensures FillForward(rows)[i].country == rows[i].country && FillForward(rows)[i].year == rows[i].year
    ensures rows[i].gdp.Some? ==> FillForward(rows)[i] == rows[i]
    ensures FillForward(rows)[i].gdp.None? <==>
      forall j :: 0 <= j <= i && rows[j].country == rows[i].country ==> rows[j].gdp.None?
    ensures FillForward(rows)[i].gdp.Some? ==>
      exists j :: 0 <= j <= i && rows[j].country == rows[i].country && rows[j].gdp == FillForward(rows)[i].gdp
        && forall k :: j < k <= i && rows[k].country == rows[i].country ==> rows[k].gdp.None?
  {
    FillForwardSpec(rows);
    var prefix := rows[..i + 1];
    LastKnownIsNearest(prefix, rows[i].country);
    assert forall j :: 0 <= j <= i ==> prefix[j] == rows[j];
    if rows[i].gdp.Some? {
      assert prefix[i] == rows[i];
    }
  }

  // ---------------------------------------------------------------------
  // dropna(subset=['GDP'])

  function AsObservation(r: Record): Observation
    requires r.gdp.Some?
  {
    Observation(r.country, r.year, r.gdp.value)
  }

  /** The rows that have a GDP, in their order. */
  function DropMissingGdp(rows: seq<Record>): (obs: seq<Observation>)
    ensures |obs| <= |rows|
    ensures forall o :: o in obs <==> exists i :: 0 <= i < |rows| && rows[i] == Record(o.country, o.year, Some(o.gdp))
  {
    if rows == [] then []
    else
      var n := |rows| - 1;
      var init := DropMissingGdp(rows[..n]);
      assert forall i :: 0 <= i < n ==> rows[..n][i] == rows[i];
      if rows[n].gdp.Some? then init + [AsObservation(rows[n])] else init
  }

  /** `dropna` is a filter: the rows of a concatenation are dropped part by
      part, and the kept rows stay in their order. */
  lemma {:induction false} DropMissingGdpAppend(a: seq<Record>, b: seq<Record>)
    ensures DropMissingGdp(a + b) == DropMissingGdp(a) + DropMissingGdp(b)
  {
    if b == [] {
      assert a + b == a;
    } else {
      var n := |b| - 1;
      assert (a + b)[..|a + b| - 1] == a + b[..n];
      DropMissingGdpAppend(a, b[..n]);
    }
  }

  /** A single row is kept, as its observation, exactly when it has a GDP. */
  lemma DropMissingGdpSingle(r: Record)
    ensures DropMissingGdp([r]) == if r.gdp.Some? then [AsObservation(r)] else []
  {
    assert [r][..0] == [];
  }

  predicate ObservationBefore(a: Observation, b: Observation)
  {
    KeyBefore(a.country, a.year, b.country, b.year)
  }

  ghost predicate ObservationsSorted(obs: seq<Observation>)
  {
    forall i, j :: 0 <= i < j < |obs| ==> !ObservationBefore(obs[j], obs[i])
  }

  /** Dropping rows keeps the frame sorted. */
  lemma {:induction false} DropMissingGdpKeepsOrder(rows: seq<Record>)
    requires SortedByKey(rows)
    ensures ObservationsSorted(DropMissingGdp(rows))
  {
    if rows != [] {
      var n := |rows| - 1;
      var prefix := rows[..n];
      assert SortedByKey(prefix) by {
        forall i, j | 0 <= i < j < n
          ensures !RecordBefore(prefix[j], prefix[i])
        {
          assert prefix[j] == rows[j] && prefix[i] == rows[i];
        }
      }
      DropMissingGdpKeepsOrder(prefix);
      var init := DropMissingGdp(prefix);
      if rows[n].gdp.Some? {
        var o := AsObservation(rows[n]);
        var r := init + [o];
        assert DropMissingGdp(rows) == r;
        forall j | 0 <= j < |init|
          ensures !ObservationBefore(o, init[j])
        {
          assert init[j] in init;
          var i :| 0 <= i < n && prefix[i] == Record(init[j].country, init[j].year, Some(init[j].gdp));
          assert !RecordBefore(rows[n], rows[i]);
        }
        forall i, j | 0 <= i < j < |r|
          ensures !ObservationBefore(r[j], r[i])
        {
          assert r[i] == init[i];
          if j < |init| {
            assert r[j] == init[j];
          }
        }
      } else {
        assert DropMissingGdp(rows) == init;
      }
    }
  }

  /** The frame after the forward fill and `dropna`. */
  function CleanRecords(sorted: seq<Record>): seq<Observation>
  {
    DropMissingGdp(FillForward(sorted))
  }

  /** A row of a country that has a GDP at or before it survives, carrying
      the GDP of such a row. */
  lemma CleanKeepsKnownRows(rows: seq<Record>, i: int)
    requires 0 <= i < |rows|
    ensures (exists j :: 0 <= j <= i && rows[j].country == rows[i].country && rows[j].gdp.Some?) ==>
      exists g :: Observation(rows[i].country, rows[i].year, g) in CleanRecords(rows)
        && exists j :: 0 <= j <= i && rows[j].country == rows[i].country && rows[j].gdp == Some(g)
  {
    FillForwardFillsFromNearest(rows, i);
    var filled := FillForward(rows);
    if exists j :: 0 <= j <= i && rows[j].country == rows[i].country && rows[j].gdp.Some? {
      var g := filled[i].gdp.value;
      assert Observation(rows[i].country, rows[i].year, g) in CleanRecords(rows) by {
        assert filled[i] == Record(rows[i].country, rows[i].year, Some(g));
      }
    }
  }

  /** A row of a country that has no GDP at or before it contributes
      nothing: the cleaned frame is what the rows before it and the rows
      after it contribute. */
  lemma CleanDropsUnknownRows(rows: seq<Record>, i: int)
    requires 0 <= i < |rows|
    requires forall j :: 0 <= j <= i && rows[j].country == rows[i].country ==> rows[j].gdp.None?
    ensures CleanRecords(rows)
            == DropMissingGdp(FillForward(rows)[..i]) + DropMissingGdp(FillForward(rows)[i + 1..])
  {
    FillForwardFillsFromNearest(rows, i);
    var filled := FillForward(rows);
    assert filled == filled[..i] + [filled[i]] + filled[i + 1..];
    DropMissingGdpAppend(filled[..i] + [filled[i]], filled[i + 1..]);
    DropMissingGdpAppend(filled[..i], [filled[i]]);
    DropMissingGdpSingle(filled[i]);
  }
}
