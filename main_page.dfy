/**
  The data steps of the home page handler (main.py): the three-year window and
  date sort, per-poll normalisation of the six main parties, the latest-row
  lookup, and the chart loop over the page's own six-party table.
 */
module MainPage {
  import opened Wrappers
  import opened Frames
  import opened PartyRegistry
  import opened DataProcessing

  // ---------------------------------------------------------------------------
  // Window and sort
  // ---------------------------------------------------------------------------

  /** `df[df['date'] >= three_years_ago].sort_values('date')`. */
  function RecentSorted(rows: seq<Row>, now: int): (r: seq<Row>)
    ensures SortedByDate(r)
    ensures forall x :: x in r ==> WithinWindow(x, now)
    ensures forall x :: multiset(r)[x] == if WithinWindow(x, now) then multiset(rows)[x] else 0
  {
    var recent := Where(rows, x => WithinWindow(x, now));
    assert forall x :: x in multiset(recent) ==> WithinWindow(x, now);
    SortByDate(recent)
  }

  /** The page's window is the filter stage's window: the component's output is a subset of it. */
  lemma FilterStaysInsideWindow(rows: seq<Row>, parties: seq<string>, now: int)
    ensures forall x :: multiset(FilterData(rows, parties, now))[x] <= multiset(RecentSorted(rows, now))[x]
  {
  }

  // ---------------------------------------------------------------------------
  // Latest row
  // ---------------------------------------------------------------------------

  function MaxDate(rows: seq<Row>): (d: int)
    requires rows != []
    ensures forall i :: 0 <= i < |rows| ==> rows[i].date <= d
    ensures exists i :: 0 <= i < |rows| && rows[i].date == d
  {
    if |rows| == 1 then rows[0].date
    else
      var m := MaxDate(rows[1..]);
      assert forall i :: 1 <= i < |rows| ==> rows[i] == rows[1..][i - 1];
      if rows[0].date >= m then rows[0].date else m
  }

  function FirstDated(rows: seq<Row>, d: int): (k: nat)
    requires exists i :: 0 <= i < |rows| && rows[i].date == d
    ensures k < |rows| && rows[k].date == d
    ensures forall j :: 0 <= j < k ==> rows[j].date != d
  {
    if rows[0].date == d then 0
    else
      assert exists i :: 0 <= i < |rows[1..]| && rows[1..][i].date == d by {
        var i :| 0 <= i < |rows| && rows[i].date == d;
        assert rows[1..][i - 1].date == d;
      }
      1 + FirstDated(rows[1..], d)
  }

  /**
    `df[df['date'] == df['date'].max()].iloc[0]`: the first row carrying the latest
    date; None for an empty table, where `iloc[0]` raises IndexError.
   */
  function LatestIndex(rows: seq<Row>): (r: Option<nat>)
    ensures r.None? <==> rows == []
    ensures r.Some? ==> r.value < |rows|
    ensures r.Some? ==> forall j :: 0 <= j < |rows| ==> rows[j].date <= rows[r.value].date
    ensures r.Some? ==> forall j :: 0 <= j < r.value ==> rows[j].date < rows[r.value].date
  {
    if rows == [] then None else Some(FirstDated(rows, MaxDate(rows)))
  }

  // ---------------------------------------------------------------------------
  // Per-poll normalisation
  // ---------------------------------------------------------------------------

  /**
    A poll row as the series `apply` hands to `normalize_poll_row`: column name
    to a number, or None for NaN. The party columns of the raw table are numeric
    (a text cell there would make the sum raise TypeError).
   */
  type Series = map<string, Option<real>>

  /** Every listed name is a column of the row (a missing one raises KeyError). */
  predicate HasColumns(row: Series, names: seq<string>)
  {
    forall i :: 0 <= i < |names| ==> names[i] in row
  }

  /** What a value adds to a sum that skips NaN. */
  function OrZero(v: Option<real>): real
  {
    if v.Some? then v.value else 0.0
  }

  /** The sum of the present values of the first `k` listed columns. */
  function TotalOf(row: Series, names: seq<string>, k: nat): real
    requires HasColumns(row, names) && k <= |names|
  {
    if k == 0 then 0.0 else TotalOf(row, names, k - 1) + OrZero(row[names[k - 1]])
  }

  /** `sum(row[name] for name in party_names if pd.notna(row[name]))`. */
  function PresentTotal(row: Series, names: seq<string>): real
    requires HasColumns(row, names)
  {
    TotalOf(row, names, |names|)
  }

  /**
    NaN values add nothing to the total: a row with no listed value totals 0 (and
    is returned unchanged), and non-negative values give a non-negative total.
   */
  lemma {:induction false} TotalOfBounds(row: Series, names: seq<string>, k: nat)
    requires HasColumns(row, names) && k <= |names|
    ensures (forall i :: 0 <= i < k ==> row[names[i]].None?) ==> TotalOf(row, names, k) == 0.0
    ensures (forall i :: 0 <= i < k ==> OrZero(row[names[i]]) >= 0.0) ==> TotalOf(row, names, k) >= 0.0
  {
    if k > 0 {
      TotalOfBounds(row, names, k - 1);
    }
  }

  /** `row[name] / total * 100` for a present value; NaN stays NaN. */
  function Rescale(v: Option<real>, total: real): (r: Option<real>)
    requires total != 0.0
    ensures r.Some? <==> v.Some?
  {
    if v.Some? then Some(v.value / total * 100.0) else None
  }

  /**
    The row once the rewriting loop has visited the first `k` listed names; each
    visit reads the row as rewritten so far, so a name listed twice is rescaled twice.
   */
  function RescaledUpTo(row: Series, names: seq<string>, total: real, k: nat): (r: Series)
    requires HasColumns(row, names) && k <= |names|
    requires total != 0.0
    ensures r.Keys == row.Keys
    ensures forall key :: key in row ==> (r[key].Some? <==> row[key].Some?)
  {
    if k == 0 then row
    else
      var prev := RescaledUpTo(row, names, total, k - 1);
      var name := names[k - 1];
      if prev[name].Some? then prev[name := Rescale(prev[name], total)] else prev
  }

  /**
    `normalize_poll_row` as a value: the row unchanged when its total is 0, every
    listed present value rescaled otherwise. No column appears or disappears, and
    no value turns from NaN to a number or back.
   */
  function NormalizedRow(row: Series, names: seq<string>): (r: Series)
    requires HasColumns(row, names)
    ensures r.Keys == row.Keys
    ensures forall key :: key in row ==> (r[key].Some? <==> row[key].Some?)
    ensures PresentTotal(row, names) == 0.0 ==> r == row
  {
    var total := PresentTotal(row, names);
    if total == 0.0 then row else RescaledUpTo(row, names, total, |names|)
  }

  /** `normalize_poll_row`: total the present values, then rewrite each present value in turn. */
  method NormalizePollRow(row: Series, names: seq<string>) returns (out: Series)
    requires HasColumns(row, names)
    ensures out == NormalizedRow(row, names)
  {
    var total := PresentTotal(row, names);
    if total == 0.0 {
      return row;
    }
    out := row;
    for k := 0 to |names|
      invariant out == RescaledUpTo(row, names, total, k)
    {
      var name := names[k];
      if out[name].Some? {
        out := out[name := Some(out[name].value / total * 100.0)];
      }
    }
  }

  /** A column the loop has not visited yet still holds its original value. */
  lemma {:induction false} RescaledElsewhere(row: Series, names: seq<string>, total: real, k: nat, key: string)
    requires HasColumns(row, names) && k <= |names|
    requires total != 0.0
    requires key in row
    requires forall i :: 0 <= i < k ==> names[i] != key
    ensures RescaledUpTo(row, names, total, k)[key] == row[key]
  {
    if k > 0 {
      RescaledElsewhere(row, names, total, k - 1, key);
    }
  }

  /** Columns that are not listed (the date, the pollster, ...) come out unchanged. */
  lemma {:induction false} NormalizedLeavesOthers(row: Series, names: seq<string>, key: string)
    requires HasColumns(row, names)
    requires key in row
    requires forall i :: 0 <= i < |names| ==> names[i] != key
    ensures NormalizedRow(row, names)[key] == row[key]
  {
    var total := PresentTotal(row, names);
    if total != 0.0 {
      RescaledElsewhere(row, names, total, |names|, key);
    }
  }

  /** With distinct names, each visited column holds its original value rescaled exactly once. */
  lemma {:induction false} RescaledAt(row: Series, names: seq<string>, total: real, k: nat, j: nat)
    requires HasColumns(row, names) && k <= |names|
    requires total != 0.0
    requires Distinct(names)
    requires j < k
    ensures RescaledUpTo(row, names, total, k)[names[j]] == Rescale(row[names[j]], total)
  {
    if j == k - 1 {
      RescaledElsewhere(row, names, total, k - 1, names[j]);
    } else {
      RescaledAt(row, names, total, k - 1, j);
    }
  }

  /** A sum of values each `factor` times another row's is `factor` times that row's sum. */
  lemma {:induction false} ScaledTotal(row: Series, out: Series, names: seq<string>, k: nat, factor: real)
    requires HasColumns(row, names) && HasColumns(out, names) && k <= |names|
    requires forall i :: 0 <= i < k ==> OrZero(out[names[i]]) == OrZero(row[names[i]]) * factor
    ensures TotalOf(out, names, k) == TotalOf(row, names, k) * factor
  {
    if k > 0 {
      ScaledTotal(row, out, names, k - 1, factor);
    }
  }

  /** Rescaling multiplies a present value by 100 / total and leaves NaN adding nothing. */
  lemma {:induction false} RescaleFactor(v: Option<real>, total: real)
    requires total != 0.0
    ensures OrZero(Rescale(v, total)) == OrZero(v) * (100.0 / total)
  {
    if v.Some? {
      assert v.value / total * 100.0 == v.value * (100.0 / total);
    }
  }

  /** With distinct names, the loop multiplies every listed value by 100 / total. */
  lemma RescaledScales(row: Series, names: seq<string>, total: real)
    requires HasColumns(row, names)
    requires total != 0.0
    requires Distinct(names)
    ensures forall j :: 0 <= j < |names| ==>
      OrZero(RescaledUpTo(row, names, total, |names|)[names[j]]) == OrZero(row[names[j]]) * (100.0 / total)
  {
    forall j | 0 <= j < |names|
      ensures OrZero(RescaledUpTo(row, names, total, |names|)[names[j]]) == OrZero(row[names[j]]) * (100.0 / total)
    {
      RescaledAt(row, names, total, |names|, j);
      RescaleFactor(row[names[j]], total);
    }
  }

  lemma InverseScale(total: real)
    requires total != 0.0
    ensures total * (100.0 / total) == 100.0
  {
  }

  /** When the total is not 0, the listed present values of the normalised row add up to 100. */
  lemma {:induction false} NormalizedSumsTo100(row: Series, names: seq<string>)
    requires HasColumns(row, names)
    requires Distinct(names)
    requires PresentTotal(row, names) != 0.0
    ensures PresentTotal(NormalizedRow(row, names), names) == 100.0
  {
    var total := PresentTotal(row, names);
    var out := RescaledUpTo(row, names, total, |names|);
    RescaledScales(row, names, total);
    ScaledTotal(row, out, names, |names|, 100.0 / total);
    InverseScale(total);
  }

  lemma CrossRatio(va: real, vb: real, total: real)
    requires total != 0.0
    ensures (va / total * 100.0) * vb == (vb / total * 100.0) * va
  {
  }

  /**
    Normalisation keeps the ratio between any two present listed values (stated
    without division: a' * b == b' * a), whether or not the total is 0.
   */
  lemma {:induction false} NormalizedKeepsRatios(row: Series, names: seq<string>, a: nat, b: nat)
    requires HasColumns(row, names)
    requires Distinct(names)
    requires a < |names| && b < |names|
    requires row[names[a]].Some? && row[names[b]].Some?
    ensures NormalizedRow(row, names)[names[a]].Some? && NormalizedRow(row, names)[names[b]].Some?
    ensures NormalizedRow(row, names)[names[a]].value * row[names[b]].value
         == NormalizedRow(row, names)[names[b]].value * row[names[a]].value
  {
    var total := PresentTotal(row, names);
    if total != 0.0 {
      RescaledAt(row, names, total, |names|, a);
      RescaledAt(row, names, total, |names|, b);
      CrossRatio(row[names[a]].value, row[names[b]].value, total);
    }
  }

  /**
    `df.copy().apply(normalize_poll_row, axis=1)`: a new frame of normalised rows,
    one per row; the frame it was copied from is a value and does not change.
   */
  function NormalizeFrame(frame: seq<Series>, names: seq<string>): (r: seq<Series>)
    requires forall i :: 0 <= i < |frame| ==> HasColumns(frame[i], names)
    ensures |r| == |frame|
    ensures forall i :: 0 <= i < |frame| ==> r[i] == NormalizedRow(frame[i], names)
    ensures Distinct(names) ==> forall i :: 0 <= i < |frame| ==>
      HasColumns(r[i], names) && (PresentTotal(r[i], names) == 100.0 || r[i] == frame[i])
  {
    var r := seq(|frame|, i requires 0 <= i < |frame| => NormalizedRow(frame[i], names));
    assert Distinct(names) ==> forall i :: 0 <= i < |frame| ==>
      HasColumns(r[i], names) && (PresentTotal(r[i], names) == 100.0 || r[i] == frame[i]) by {
      if Distinct(names) {
        forall i | 0 <= i < |frame|
          ensures HasColumns(r[i], names) && (PresentTotal(r[i], names) == 100.0 || r[i] == frame[i])
        {
          if PresentTotal(frame[i], names) != 0.0 {
            NormalizedSumsTo100(frame[i], names);
          }
        }
      }
    }
    r
  }

  // ---------------------------------------------------------------------------
  // Chart loop of the page
  // ---------------------------------------------------------------------------

  /** The page's own `party_config`: the six main parties, all drawn. */
  const MainPartyConfig: seq<(string, PartyInfo)> := [
    ("FDI", PartyInfo("Fratelli d'Italia", "#0066CC", true)),
    ("PD", PartyInfo("Partito Democratico", "#FF0000", true)),
    ("M5S", PartyInfo("Movimento 5 Stelle", "#FFD700", true)),
    ("FI", PartyInfo("Forza Italia", "#00BFFF", true)),
    ("LEGA", PartyInfo("Lega", "#004225", true)),
    ("AVS", PartyInfo("Alleanza Verdi Sinistra", "#00B050", true))
  ]

  /** `[config['name'] for config in party_config.values()]`: distinct names. */
  lemma MainPartyNamesDistinct()
    ensures Distinct(Names(MainPartyConfig))
  {
    var n := Names(MainPartyConfig);
    assert n == ["Fratelli d'Italia", "Partito Democratico", "Movimento 5 Stelle", "Forza Italia", "Lega",
                 "Alleanza Verdi Sinistra"];
    forall i, j | 0 <= i < j < |n| ensures n[i] != n[j] {
      assert |n[i]| != |n[j]|;
    }
  }

  /** The page's table is the shared configuration's first six entries, all drawn; the rest are hidden. */
  lemma MainTableIsShownPrefix()
    ensures |PartyConfig| == 10 && PartyConfig[..6] == MainPartyConfig
    ensures forall k :: 0 <= k < |MainPartyConfig| ==> MainPartyConfig[k].1.showInGraph
    ensures forall k :: 6 <= k < |PartyConfig| ==> !PartyConfig[k].1.showInGraph
  {
  }

  /** The shown part of the shared configuration is the page's own six-party table. */
  lemma ShownOfPartyConfig()
    ensures OnlyShown(PartyConfig) == MainPartyConfig
  {
    MainTableIsShownPrefix();
    ShownParties();
  }

  /**
    The page's loop over its six-party table draws exactly what the component's
    loop draws over the full configuration, whose other four parties are hidden.
   */
  lemma MainChartMatchesComponent(columns: seq<string>, rows: seq<Row>,
                                  smoothed: map<string, seq<Option<real>>>, dates: seq<string>)
    requires |rows| <= |dates|
    requires HasSmoothedSeries(PartyConfig, smoothed)
    ensures HasSmoothedSeries(MainPartyConfig, smoothed)
    ensures ChartDatasets(MainPartyConfig, columns, rows, smoothed, dates)
         == ChartDatasets(PartyConfig, columns, rows, smoothed, dates)
  {
    ShownOfPartyConfig();
    HiddenPartiesIgnored(PartyConfig, columns, rows, smoothed, dates);
  }

  // ---------------------------------------------------------------------------
  // Column names after smoothing
  // ---------------------------------------------------------------------------

  /**
    `df_ma.rename(columns=party_mapping, inplace=True)`: the columns of the frame
    `calculate_weighted_ma` returns, each mapped display name under its abbreviation.
   */
  function RenamedColumns(columns: seq<string>): (r: seq<string>)
    ensures |r| == |columns|
    ensures forall i :: 0 <= i < |columns| ==> r[i] == AbbreviationOf(columns[i], NameToAbbreviation)
  {
    seq(|columns|, i requires 0 <= i < |columns| => AbbreviationOf(columns[i], NameToAbbreviation))
  }

  /** No abbreviation of the mapping spells one of the page's six display names. */
  lemma AbbreviationsAreNotMainNames()
    ensures forall j, k :: 0 <= j < |NameToAbbreviation| && 0 <= k < |MainPartyConfig| ==>
      NameToAbbreviation[j].1 != MainPartyConfig[k].1.name
  {
    var abbrs := ["FDI", "PD", "M5S", "FI", "LEGA", "AVS", "+Europa", "Azione", "Italia Viva", "Altri"];
    var names := ["Fratelli d'Italia", "Partito Democratico", "Movimento 5 Stelle", "Forza Italia", "Lega",
                  "Alleanza Verdi Sinistra"];
    forall j | 0 <= j < |NameToAbbreviation| ensures NameToAbbreviation[j].1 == abbrs[j] { }
    forall k | 0 <= k < |MainPartyConfig| ensures MainPartyConfig[k].1.name == names[k] { }
    forall j, k | 0 <= j < |abbrs| && 0 <= k < |names| ensures abbrs[j] != names[k] {
      if |abbrs[j]| == |names[k]| {
        assert abbrs[j][1] != names[k][1];
      }
    }
  }

  /**
    After the rename none of the page's six display names is a column: each
    column either kept a name that is not a mapped display name, or took an abbreviation.
   */
  lemma RenamedTableLacksMainNames(columns: seq<string>)
    ensures forall i, k :: 0 <= i < |columns| && 0 <= k < |MainPartyConfig| ==>
      RenamedColumns(columns)[i] != MainPartyConfig[k].1.name
  {
    var renamed := RenamedColumns(columns);
    AbbreviationsAreNotMainNames();
    NameMappingPairs();
    MainTableIsShownPrefix();
    forall i, k | 0 <= i < |columns| && 0 <= k < |MainPartyConfig|
      ensures renamed[i] != MainPartyConfig[k].1.name
    {
      var c := columns[i];
      if exists j :: 0 <= j < |NameToAbbreviation| && NameToAbbreviation[j].0 == c {
        var j :| 0 <= j < |NameToAbbreviation| && NameToAbbreviation[j] == (c, renamed[i]);
        assert NameToAbbreviation[j].1 != MainPartyConfig[k].1.name;
      } else {
        assert PartyConfig[k] == MainPartyConfig[k];
        assert NameToAbbreviation[k].0 == MainPartyConfig[k].1.name;
      }
    }
  }

  /**
    On the page as written, the frame handed to `normalize_poll_row` is the renamed
    one, so reading the first display name raises `KeyError` for every row.
   */
  lemma NormalizeAfterRenameRaises(row: Series, columns: seq<string>)
    requires forall key :: key in row ==> key in RenamedColumns(columns)
    ensures !HasColumns(row, Names(MainPartyConfig))
  {
    RenamedTableLacksMainNames(columns);
    var first := Names(MainPartyConfig)[0];
    assert first == MainPartyConfig[0].1.name;
    assert first !in RenamedColumns(columns);
    assert first !in row;
  }

  /** On the renamed frame the page's chart loop finds no poll column and draws lines only. */
  lemma PageChartAfterRenameHasNoScatter(columns: seq<string>, rows: seq<Row>,
                                         smoothed: map<string, seq<Option<real>>>, dates: seq<string>)
    requires |rows| <= |dates|
    requires HasSmoothedSeries(MainPartyConfig, smoothed)
    ensures forall d :: d in ChartDatasets(MainPartyConfig, RenamedColumns(columns), rows, smoothed, dates) ==> d.Line?
  {
    RenamedTableLacksMainNames(columns);
    NoColumnNoScatter(MainPartyConfig, RenamedColumns(columns), rows, smoothed, dates);
  }
}
