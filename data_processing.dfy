/**
  Loading and preprocessing the poll table, filtering it, and assembling the
  datasets of the party chart (components/data_processing.py).
 */
module DataProcessing {
  import opened Wrappers
  import opened Frames
  import opened PercentParsing
  import opened PartyRegistry

  const DateColumn := "date"

  // ---------------------------------------------------------------------------
  // Columns
  // ---------------------------------------------------------------------------

  /** `[col for col in cols if col != x]`. */
  function Without(cols: seq<string>, x: string): (r: seq<string>)
    ensures forall c :: c in r <==> c in cols && c != x
    ensures |r| <= |cols|
  {
    if cols == [] then []
    else (if cols[0] == x then [] else [cols[0]]) + Without(cols[1..], x)
  }

  /** Dropping a name commutes with concatenation, so the remaining names keep their order. */
  lemma {:induction false} WithoutConcat(a: seq<string>, b: seq<string>, x: string)
    ensures Without(a + b, x) == Without(a, x) + Without(b, x)
  {
    if a == [] {
      assert a + b == b;
    } else {
      var head := if a[0] == x then [] else [a[0]];
      assert (a + b)[0] == a[0] && (a + b)[1..] == a[1..] + b;
      assert Without(a + b, x) == head + Without(a[1..] + b, x);
      WithoutConcat(a[1..], b, x);
      assert head + (Without(a[1..], x) + Without(b, x)) == (head + Without(a[1..], x)) + Without(b, x);
    }
  }

  lemma {:induction false} WithoutAbsent(cols: seq<string>, x: string)
    requires x !in cols
    ensures Without(cols, x) == cols
  {
    if cols != [] {
      WithoutAbsent(cols[1..], x);
      assert cols == [cols[0]] + cols[1..];
    }
  }

  /**
    Assigning `df['date']` (appended when new) and then moving it to the front:
    `date` first, then every other column in its original order.
   */
  function ReorderColumns(cols: seq<string>): (r: seq<string>)
    ensures |r| > 0 && r[0] == DateColumn
    ensures DateColumn !in r[1..]
    ensures forall c :: c in r <==> c in cols || c == DateColumn
  {
    var withDate := if DateColumn in cols then cols else cols + [DateColumn];
    [DateColumn] + Without(withDate, DateColumn)
  }

  /** The non-date columns keep their relative order; with no `date` column before, nothing else moves. */
  lemma ReorderKeepsOrder(cols: seq<string>)
    ensures ReorderColumns(cols)[1..] == Without(cols, DateColumn)
    ensures DateColumn !in cols ==> ReorderColumns(cols) == [DateColumn] + cols
  {
    if DateColumn !in cols {
      WithoutConcat(cols, [DateColumn], DateColumn);
      assert Without([DateColumn], DateColumn) == [];
      WithoutAbsent(cols, DateColumn);
    }
  }

  /** Position of the first occurrence of `x`, or |cols|. */
  function FirstIndex(cols: seq<string>, x: string): (k: nat)
    ensures k <= |cols|
    ensures k < |cols| <==> x in cols
    ensures k < |cols| ==> cols[k] == x
    ensures x !in cols[..k]
  {
    if cols == [] then 0
    else if cols[0] == x then 0
    else
      var k := 1 + FirstIndex(cols[1..], x);
      assert cols[..k] == [cols[0]] + cols[1..][..k - 1];
      k
  }

  /**
    `df.columns[df.columns.get_loc('Partito Democratico'):]`: the columns from the
    first `Partito Democratico` onward; None where `get_loc` raises KeyError.
   */
  function PartyColumns(cols: seq<string>): (r: Option<seq<string>>)
    ensures r.Some? <==> DemocraticParty in cols
    ensures r.Some? ==> 0 < |r.value| <= |cols| && r.value[0] == DemocraticParty
    ensures r.Some? ==> r.value == cols[|cols| - |r.value|..]
    ensures r.Some? ==> DemocraticParty !in cols[..|cols| - |r.value|]
  {
    var k := FirstIndex(cols, DemocraticParty);
    if k < |cols| then Some(cols[k..]) else None
  }

  // ---------------------------------------------------------------------------
  // Cell conversion
  // ---------------------------------------------------------------------------

  /**
    One cell of a party column: text is read as a locale percentage (missing when
    unreadable), a whole number is widened to a real, anything else is kept.
   */
  function ConvertCell(c: Cell): (r: Cell)
    ensures r.Num? || r.Missing?
    ensures c.Text? ==> (r.Missing? <==> ParsePercent(c.text).None?)
    ensures c.Text? && r.Num? ==> ParsePercent(c.text) == Some(r.value)
    ensures c.Int? ==> r == Num(c.n as real)
    ensures c.Num? || c.Missing? ==> r == c
  {
    match c
    case Text(s) => (match ParsePercent(s) case Some(v) => Num(v) case None => Missing)
    case Int(n) => Num(n as real)
    case _ => c
  }

  /** Converting twice is converting once. */
  lemma ConvertCellIdempotent(c: Cell)
    ensures ConvertCell(ConvertCell(c)) == ConvertCell(c)
  {
  }

  /**
    After cleaning, a cell reads as a number exactly when it is not missing
    (`notna`), and that number is the parsed percentage or the integer itself.
   */
  lemma CleanedReadingIsParsed(c: Cell)
    ensures Reading(ConvertCell(c)).Some? <==> NotNa(ConvertCell(c))
    ensures c.Text? ==> Reading(ConvertCell(c)) == ParsePercent(c.text)
    ensures c.Int? ==> Reading(ConvertCell(c)) == Some(c.n as real)
    ensures c.Num? ==> Reading(ConvertCell(c)) == Some(c.value)
  {
  }

  /** `df.at[i, party] = ...` for one party column of one row. */
  function ConvertColumn(row: Row, party: string): (r: Row)
    ensures r.date == row.date && r.cells.Keys == row.cells.Keys
    ensures party in row.cells ==> r.cells[party] == ConvertCell(row.cells[party])
    ensures forall c :: c in row.cells && c != party ==> r.cells[c] == row.cells[c]
  {
    if party in row.cells then row.(cells := row.cells[party := ConvertCell(row.cells[party])]) else row
  }

  /** A row after the conversion pass over `parties`, one column after the other. */
  function ConvertRow(row: Row, parties: seq<string>): (r: Row)
    ensures r.date == row.date
    ensures r.cells.Keys == row.cells.Keys
    ensures forall c :: c in row.cells && c in parties ==> r.cells[c] == ConvertCell(row.cells[c])
    ensures forall c :: c in row.cells && c !in parties ==> r.cells[c] == row.cells[c]
  {
    if parties == [] then row
    else
      var last := parties[|parties| - 1];
      var prev := ConvertRow(row, parties[..|parties| - 1]);
      assert forall c :: c in parties <==> c in parties[..|parties| - 1] || c == last;
      ConvertColumn(prev, last)
  }

  /** After cleaning, every party cell is a real or missing. */
  predicate Cleaned(rows: seq<Row>, parties: seq<string>)
  {
    forall i, p :: 0 <= i < |rows| && p in parties && p in rows[i].cells ==>
      rows[i].cells[p].Num? || rows[i].cells[p].Missing?
  }

  /** The inner loop: convert one party column in every row, in row order. */
  method ConvertColumnInPlace(table: array<Row>, party: string)
    modifies table
    ensures forall i :: 0 <= i < table.Length ==> table[i] == ConvertColumn(old(table[i]), party)
  {
    for i := 0 to table.Length
      invariant forall j :: 0 <= j < i ==> table[j] == ConvertColumn(old(table[j]), party)
      invariant forall j :: i <= j < table.Length ==> table[j] == old(table[j])
    {
      var row := table[i];
      if party in row.cells {
        table[i] := row.(cells := row.cells[party := ConvertCell(row.cells[party])]);
      }
    }
  }

  /**
    The conversion loop: for each party column, for each row, overwrite the
    cell with its converted value.
   */
  method ConvertPercentages(table: array<Row>, parties: seq<string>)
    modifies table
    ensures forall i :: 0 <= i < table.Length ==> table[i] == ConvertRow(old(table[i]), parties)
    ensures Cleaned(table[..], parties)
  {
    for p := 0 to |parties|
      invariant forall i :: 0 <= i < table.Length ==> table[i] == ConvertRow(old(table[i]), parties[..p])
    {
      assert parties[..p + 1][..p] == parties[..p];
      ConvertColumnInPlace(table, parties[p]);
    }
    assert parties[..|parties|] == parties;
  }

  /**
    `load_and_preprocess_data` once the table is read and its dates parsed: the
    reordered columns and the party columns, with the party cells converted in
    place; None (and the table untouched) where `get_loc` raises KeyError.
   */
  method LoadAndPreprocess(columns: seq<string>, table: array<Row>) returns (r: Option<(seq<string>, seq<string>)>)
    modifies table
    ensures r.None? <==> DemocraticParty !in columns
    ensures r.None? ==> table[..] == old(table[..])
    ensures r.Some? ==> r.value.0 == ReorderColumns(columns) && Some(r.value.1) == PartyColumns(ReorderColumns(columns))
    ensures r.Some? ==> forall i :: 0 <= i < table.Length ==> table[i] == ConvertRow(old(table[i]), r.value.1)
  {
    var cols := ReorderColumns(columns);
    var parties := PartyColumns(cols);
    if parties.None? {
      return None;
    }
    ConvertPercentages(table, parties.value);
    r := Some((cols, parties.value));
  }

  // ---------------------------------------------------------------------------
  // Filter stage
  // ---------------------------------------------------------------------------

  /** `df[all_party_columns].sum(axis=1)`: the sum of the present party values. */
  function PartySum(row: Row, parties: seq<string>): (r: real)
    ensures (forall k :: 0 <= k < |parties| ==> Reading(CellAt(row, parties[k])).None?) ==> r == 0.0
    ensures (forall k :: 0 <= k < |parties| ==> ValueOrZero(CellAt(row, parties[k])) >= 0.0) ==> r >= 0.0
  {
    if parties == [] then 0.0
    else PartySum(row, parties[..|parties| - 1]) + ValueOrZero(CellAt(row, parties[|parties| - 1]))
  }

  /** The first mask: both anchor parties have a value in this row. */
  predicate AnchorsPresent(row: Row): (b: bool)
    ensures b <==> && DemocraticParty in row.cells && !row.cells[DemocraticParty].Missing?
                   && BrothersOfItaly in row.cells && !row.cells[BrothersOfItaly].Missing?
  {
    NotNa(CellAt(row, DemocraticParty)) && NotNa(CellAt(row, BrothersOfItaly))
  }

  /** The second mask; a row without a single reading totals 0 and never passes it. */
  predicate PlausibleTotal(row: Row, parties: seq<string>): (b: bool)
    ensures b ==> exists k :: 0 <= k < |parties| && Reading(CellAt(row, parties[k])).Some?
  {
    90.0 < PartySum(row, parties) < 110.0
  }

  /**
    The three masks of `filter_data`. A kept row has both anchor columns, at least
    one reading, and a day no earlier than 1095 days before today.
   */
  predicate Keep(row: Row, parties: seq<string>, now: int): (b: bool)
    ensures b ==> DemocraticParty in row.cells && BrothersOfItaly in row.cells
    ensures b ==> exists k :: 0 <= k < |parties| && Reading(CellAt(row, parties[k])).Some?
    ensures b ==> row.date >= now / MicrosPerDay - WindowDays
  {
    AnchorsPresent(row) && PlausibleTotal(row, parties) && WithinWindow(row, now)
  }

  /**
    `filter_data`: the rows passing all three masks, sorted by date. Every kept
    row passes, every passing row is kept as often as it occurs, and no row is
    altered.
   */
  function FilterData(rows: seq<Row>, parties: seq<string>, now: int): (r: seq<Row>)
    ensures SortedByDate(r)
    ensures forall x :: x in r ==> Keep(x, parties, now)
    ensures forall x :: multiset(r)[x] == if Keep(x, parties, now) then multiset(rows)[x] else 0
  {
    var kept := Where(rows, x => Keep(x, parties, now));
    assert forall x :: x in multiset(kept) ==> Keep(x, parties, now);
    SortByDate(kept)
  }

  /**
    `filter_data` on a table with the given columns: indexing a missing anchor
    column raises `KeyError`, modelled as no result.
   */
  function FilterTable(columns: seq<string>, rows: seq<Row>, parties: seq<string>, now: int): (r: Option<seq<Row>>)
    ensures r.None? <==> DemocraticParty !in columns || BrothersOfItaly !in columns
    ensures r.Some? ==> SortedByDate(r.value) && forall x :: x in r.value ==> Keep(x, parties, now)
    ensures r.Some? ==> forall x :: multiset(r.value)[x] == if Keep(x, parties, now) then multiset(rows)[x] else 0
  {
    if DemocraticParty !in columns || BrothersOfItaly !in columns then None
    else Some(FilterData(rows, parties, now))
  }

  /** Both bounds on the total are exclusive: a row totalling exactly 90 or 110 is dropped. */
  lemma TotalBoundsExclusive(row: Row, parties: seq<string>, now: int)
    requires PartySum(row, parties) == 90.0 || PartySum(row, parties) == 110.0
    ensures row !in FilterData([row], parties, now)
  {
  }

  /** Missing values do not count towards the total. */
  lemma {:induction false} MissingAddsNothing(row: Row, parties: seq<string>, p: string)
    requires p in row.cells && row.cells[p].Missing?
    ensures PartySum(row.(cells := row.cells - {p}), parties) == PartySum(row, parties)
  {
    if parties != [] {
      MissingAddsNothing(row, parties[..|parties| - 1], p);
    }
  }

  // ---------------------------------------------------------------------------
  // Chart datasets
  // ---------------------------------------------------------------------------

  /** One poll on the chart: its date label and its value. */
  datatype Point = Point(x: string, y: real)

  /** A chart dataset: the scatter of a party's polls, or the line of its moving average. */
  datatype Dataset =
    | Scatter(legend: string, points: seq<Point>, background: string)
    | Line(legend: string, series: seq<Option<real>>, color: string)

  function MovingAverageColumn(abbr: string): string
  {
    abbr + "_MA"
  }

  /** The points of the non-missing values of column `name`, the i-th row placed at `dates[i]`. */
  function ScatterPoints(rows: seq<Row>, name: string, dates: seq<string>): (r: seq<Point>)
    requires |rows| <= |dates|
    ensures |r| <= |rows|
  {
    if rows == [] then []
    else
      var i := |rows| - 1;
      ScatterPoints(rows[..i], name, dates)
      + (match Reading(CellAt(rows[i], name)) case Some(v) => [Point(dates[i], v)] case None => [])
  }

  /** What one configured party adds to the chart. */
  function PartyDatasets(entry: (string, PartyInfo), columns: seq<string>, rows: seq<Row>,
                         smoothed: map<string, seq<Option<real>>>, dates: seq<string>): (r: seq<Dataset>)
    requires |rows| <= |dates|
    requires entry.1.showInGraph ==> MovingAverageColumn(entry.0) in smoothed
    ensures !entry.1.showInGraph ==> r == []
    ensures entry.1.showInGraph ==>
      1 <= |r| <= 2 && r[|r| - 1] == Line(entry.0, smoothed[MovingAverageColumn(entry.0)], entry.1.color)
    ensures |r| == 2 ==> entry.1.name in columns && r[0].Scatter? && r[0].points != []
  {
    var (abbr, info) := entry;
    if !info.showInGraph then []
    else
      var points := if info.name in columns then ScatterPoints(rows, info.name, dates) else [];
      (if points != [] then [Scatter(abbr + " (polls)", points, info.color + "40")] else [])
      + [Line(abbr, smoothed[MovingAverageColumn(abbr)], info.color)]
  }

  predicate HasSmoothedSeries(config: seq<(string, PartyInfo)>, smoothed: map<string, seq<Option<real>>>)
  {
    forall k :: 0 <= k < |config| && config[k].1.showInGraph ==> MovingAverageColumn(config[k].0) in smoothed
  }

  /** All datasets, party by party in configuration order. */
  function ChartDatasets(config: seq<(string, PartyInfo)>, columns: seq<string>, rows: seq<Row>,
                         smoothed: map<string, seq<Option<real>>>, dates: seq<string>): (r: seq<Dataset>)
    requires |rows| <= |dates|
    requires HasSmoothedSeries(config, smoothed)
    ensures |r| <= 2 * |config|
  {
    if config == [] then []
    else
      var n := |config| - 1;
      ChartDatasets(config[..n], columns, rows, smoothed, dates)
      + PartyDatasets(config[n], columns, rows, smoothed, dates)
  }

  /** The inner loop of `prepare_chart_datasets`: one point per non-missing value of the column. */
  method CollectPoints(rows: seq<Row>, name: string, dates: seq<string>) returns (points: seq<Point>)
    requires |rows| <= |dates|
    ensures points == ScatterPoints(rows, name, dates)
  {
    points := [];
    for i := 0 to |rows|
      invariant points == ScatterPoints(rows[..i], name, dates)
    {
      assert rows[..i + 1][..i] == rows[..i];
      match Reading(CellAt(rows[i], name)) {
        case Some(v) => points := points + [Point(dates[i], v)];
        case None =>
      }
    }
    assert rows[..|rows|] == rows;
  }

  /** `prepare_chart_datasets`: the list-building loop over the configuration. */
  method PrepareChartDatasets(config: seq<(string, PartyInfo)>, columns: seq<string>, rows: seq<Row>,
                              smoothed: map<string, seq<Option<real>>>, dates: seq<string>)
    returns (datasets: seq<Dataset>)
    requires |rows| <= |dates|
    requires HasSmoothedSeries(config, smoothed)
    ensures datasets == ChartDatasets(config, columns, rows, smoothed, dates)
  {
    datasets := [];
    for k := 0 to |config|
      invariant datasets == ChartDatasets(config[..k], columns, rows, smoothed, dates)
    {
      assert config[..k + 1][..k] == config[..k];
      var (abbr, info) := config[k];
      if !info.showInGraph {
        continue;
      }
      var line := Line(abbr, smoothed[MovingAverageColumn(abbr)], info.color);
      var points: seq<Point> := [];
      if info.name in columns {
        points := CollectPoints(rows, info.name, dates);
      }
      if points != [] {
        datasets := datasets + [Scatter(abbr + " (polls)", points, info.color + "40")];
      }
      datasets := datasets + [line];
    }
    assert config[..|config|] == config;
  }

  /**
    A point exists exactly for each non-missing value of the column, placed at the
    date of the same position.
   */
  lemma {:induction false} ScatterPointsExact(rows: seq<Row>, name: string, dates: seq<string>)
    requires |rows| <= |dates|
    ensures |ScatterPoints(rows, name, dates)| <= |rows|
    ensures forall i :: 0 <= i < |rows| && Reading(CellAt(rows[i], name)).Some? ==>
      Point(dates[i], Reading(CellAt(rows[i], name)).value) in ScatterPoints(rows, name, dates)
    ensures forall p :: p in ScatterPoints(rows, name, dates) ==>
      exists i :: 0 <= i < |rows| && Reading(CellAt(rows[i], name)) == Some(p.y) && p.x == dates[i]
  {
    if rows != [] {
      var n := |rows| - 1;
      ScatterPointsExact(rows[..n], name, dates);
      forall i | 0 <= i < n ensures rows[..n][i] == rows[i] { }
    }
  }

  /** The positions of the rows with a reading in column `name`, in increasing order. */
  function PresentIndices(rows: seq<Row>, name: string): (r: seq<nat>)
    ensures forall k :: 0 <= k < |r| ==> r[k] < |rows| && Reading(CellAt(rows[r[k]], name)).Some?
    ensures forall i :: 0 <= i < |rows| && Reading(CellAt(rows[i], name)).Some? ==> i in r
    ensures forall k, l :: 0 <= k < l < |r| ==> r[k] < r[l]
  {
    if rows == [] then []
    else
      var n := |rows| - 1;
      PresentIndices(rows[..n], name) + (if Reading(CellAt(rows[n], name)).Some? then [n] else [])
  }

  /**
    The k-th point is the k-th non-missing value of the column, in row order,
    placed at that row's date: no value is dropped, repeated or reordered.
   */
  lemma {:induction false} ScatterPointsIndexed(rows: seq<Row>, name: string, dates: seq<string>)
    requires |rows| <= |dates|
    ensures |ScatterPoints(rows, name, dates)| == |PresentIndices(rows, name)|
    ensures forall k :: 0 <= k < |PresentIndices(rows, name)| ==>
      var i := PresentIndices(rows, name)[k];
      ScatterPoints(rows, name, dates)[k] == Point(dates[i], Reading(CellAt(rows[i], name)).value)
  {
    if rows != [] {
      var n := |rows| - 1;
      ScatterPointsIndexed(rows[..n], name, dates);
      var before := PresentIndices(rows[..n], name);
      var points := ScatterPoints(rows[..n], name, dates);
      forall k | 0 <= k < |before| ensures rows[..n][before[k]] == rows[before[k]] { }
      match Reading(CellAt(rows[n], name)) {
        case Some(v) =>
          assert PresentIndices(rows, name) == before + [n];
          assert ScatterPoints(rows, name, dates) == points + [Point(dates[n], v)];
        case None =>
          assert PresentIndices(rows, name) == before;
          assert ScatterPoints(rows, name, dates) == points;
      }
    }
  }

  /**
    A drawn party whose column exists and holds at least one value gets its scatter
    of poll points and its moving-average line.
   */
  lemma {:induction false} DrawnPartyIsPlotted(config: seq<(string, PartyInfo)>, columns: seq<string>, rows: seq<Row>,
                                               smoothed: map<string, seq<Option<real>>>, dates: seq<string>,
                                               k: nat, i: nat)
    requires |rows| <= |dates|
    requires HasSmoothedSeries(config, smoothed)
    requires k < |config| && config[k].1.showInGraph && config[k].1.name in columns
    requires i < |rows| && Reading(CellAt(rows[i], config[k].1.name)).Some?
    ensures Scatter(config[k].0 + " (polls)", ScatterPoints(rows, config[k].1.name, dates), config[k].1.color + "40")
            in ChartDatasets(config, columns, rows, smoothed, dates)
    ensures Line(config[k].0, smoothed[MovingAverageColumn(config[k].0)], config[k].1.color)
            in ChartDatasets(config, columns, rows, smoothed, dates)
  {
    var n := |config| - 1;
    var prefix := config[..n];
    assert HasSmoothedSeries(prefix, smoothed);
    if k == n {
      ScatterPointsExact(rows, config[k].1.name, dates);
      assert ScatterPoints(rows, config[k].1.name, dates) != [];
    } else {
      assert prefix[k] == config[k];
      DrawnPartyIsPlotted(prefix, columns, rows, smoothed, dates, k, i);
    }
  }

  /** When no configured display name is a column, the chart holds lines only. */
  lemma {:induction false} NoColumnNoScatter(config: seq<(string, PartyInfo)>, columns: seq<string>, rows: seq<Row>,
                                             smoothed: map<string, seq<Option<real>>>, dates: seq<string>)
    requires |rows| <= |dates|
    requires HasSmoothedSeries(config, smoothed)
    requires forall k :: 0 <= k < |config| ==> config[k].1.name !in columns
    ensures forall d :: d in ChartDatasets(config, columns, rows, smoothed, dates) ==> d.Line?
  {
    if config != [] {
      var n := |config| - 1;
      var prefix := config[..n];
      assert HasSmoothedSeries(prefix, smoothed);
      NoColumnNoScatter(prefix, columns, rows, smoothed, dates);
      var mine := PartyDatasets(config[n], columns, rows, smoothed, dates);
      assert |mine| <= 1;
    }
  }

  lemma SmoothedSeriesOfShown(config: seq<(string, PartyInfo)>, smoothed: map<string, seq<Option<real>>>)
    requires HasSmoothedSeries(config, smoothed)
    ensures HasSmoothedSeries(OnlyShown(config), smoothed)
  {
    var r := OnlyShown(config);
    OnlyShownMembers(config);
    forall k | 0 <= k < |r| && r[k].1.showInGraph ensures MovingAverageColumn(r[k].0) in smoothed {
      assert r[k] in config;
    }
  }

  /** Hidden parties produce nothing: the chart is that of the shown parties alone. */
  lemma {:induction false} HiddenPartiesIgnored(config: seq<(string, PartyInfo)>, columns: seq<string>, rows: seq<Row>,
                                                smoothed: map<string, seq<Option<real>>>, dates: seq<string>)
    requires |rows| <= |dates|
    requires HasSmoothedSeries(config, smoothed)
    ensures HasSmoothedSeries(OnlyShown(config), smoothed)
    ensures ChartDatasets(config, columns, rows, smoothed, dates)
         == ChartDatasets(OnlyShown(config), columns, rows, smoothed, dates)
  {
    SmoothedSeriesOfShown(config, smoothed);
    if config != [] {
      var n := |config| - 1;
      var prefix := config[..n];
      assert HasSmoothedSeries(prefix, smoothed);
      HiddenPartiesIgnored(prefix, columns, rows, smoothed, dates);
      var shown := OnlyShown(prefix);
      if config[n].1.showInGraph {
        var extended := shown + [config[n]];
        assert OnlyShown(config) == extended;
        assert extended[..|extended| - 1] == shown;
      } else {
        assert OnlyShown(config) == shown;
      }
    }
  }

  /** The legends of the line datasets, in order. */
  function LineLegends(datasets: seq<Dataset>): seq<string>
  {
    if datasets == [] then []
    else LineLegends(datasets[..|datasets| - 1])
         + (if datasets[|datasets| - 1].Line? then [datasets[|datasets| - 1].legend] else [])
  }

  lemma {:induction false} LineLegendsConcat(a: seq<Dataset>, b: seq<Dataset>)
    ensures LineLegends(a + b) == LineLegends(a) + LineLegends(b)
  {
    if b != [] {
      var n := |b| - 1;
      assert (a + b)[..|a + b| - 1] == a + b[..n];
      LineLegendsConcat(a, b[..n]);
    } else {
      assert a + b == a;
    }
  }

  /** Exactly one line per shown party, in configuration order. */
  lemma {:induction false} LinesFollowConfigOrder(config: seq<(string, PartyInfo)>, columns: seq<string>, rows: seq<Row>,
                                                  smoothed: map<string, seq<Option<real>>>, dates: seq<string>)
    requires |rows| <= |dates|
    requires HasSmoothedSeries(config, smoothed)
    ensures LineLegends(ChartDatasets(config, columns, rows, smoothed, dates)) == Keys(OnlyShown(config))
  {
    if config != [] {
      var n := |config| - 1;
      LinesFollowConfigOrder(config[..n], columns, rows, smoothed, dates);
      var mine := PartyDatasets(config[n], columns, rows, smoothed, dates);
      LineLegendsConcat(ChartDatasets(config[..n], columns, rows, smoothed, dates), mine);
      ShownKeysStep(config);
      if config[n].1.showInGraph {
        var scatter := mine[..|mine| - 1];
        assert LineLegends(scatter) == [] by {
          if scatter != [] {
            assert scatter[..0] == [];
          }
        }
      }
    }
  }

  /** A party's scatter, when present, has points and comes right before that party's line. */
  predicate ScatterThenLine(datasets: seq<Dataset>)
  {
    && (datasets != [] ==> datasets[|datasets| - 1].Line?)
    && forall j :: 0 <= j < |datasets| && datasets[j].Scatter? ==>
         && j + 1 < |datasets|
         && datasets[j + 1].Line?
         && datasets[j].legend == datasets[j + 1].legend + " (polls)"
         && datasets[j].points != []
  }

  lemma {:induction false} ScatterComesBeforeItsLine(config: seq<(string, PartyInfo)>, columns: seq<string>, rows: seq<Row>,
                                                     smoothed: map<string, seq<Option<real>>>, dates: seq<string>)
    requires |rows| <= |dates|
    requires HasSmoothedSeries(config, smoothed)
    ensures ScatterThenLine(ChartDatasets(config, columns, rows, smoothed, dates))
  {
    if config != [] {
      var n := |config| - 1;
      ScatterComesBeforeItsLine(config[..n], columns, rows, smoothed, dates);
      var before := ChartDatasets(config[..n], columns, rows, smoothed, dates);
      var mine := PartyDatasets(config[n], columns, rows, smoothed, dates);
      var all := before + mine;
      forall j | 0 <= j < |all| && all[j].Scatter?
        ensures j + 1 < |all| && all[j + 1].Line?
        ensures all[j].legend == all[j + 1].legend + " (polls)" && all[j].points != []
      {
        if j < |before| {
          assert before[j].Scatter?;
        } else {
          assert mine[j - |before|].Scatter?;
        }
      }
    }
  }
}
