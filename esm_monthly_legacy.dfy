/** The first version of the daily-to-monthly conversion: one method for
    the years, no month method (each month's days are summed), no rain
    table and no check of the pixels written. As written, the month total
    is added after the year loop and so keeps only the last year; this
    module models that, shows where it differs from the sum over all the
    years, and models the conversion with the sum over all the years. */
module EsmMonthlyLegacy {
  import opened Wrappers
  import opened Strings
  import opened Ranges
  import opened Paths
  import opened Calendar
  import opened EsmMonthly

  // ---------------------------------------------------------------------
  // The year loop as written

  /** The pixel lines 39-60 compute as written: `monthly_sum += sum_array`
      follows the year loop, so the month's sum in the last year is all
      that is kept, divided by the number of years for "mean". */
  function LastYearPixel(ds: NetCdf, first: Date, ys: seq<int>, m: int, name: string, i: int, j: int): real
    requires Valid(first) && 1 <= m <= 12 && ys != []
  {
    var s := MonthValue(ds, first, ys[|ys| - 1], m, "sum", i, j);
    if name == "mean" then s / (|ys| as real) else s
  }

  /** Lines 40-56 as written: every year's days are read into a fresh
      `sum_array`, and only the one of the last year is added to the
      zero-filled `monthly`. */
  method SumYearsAsWritten(ds: NetCdf, first: Date, ys: seq<int>, m: int, monthly: array2<real>)
      returns (e: Option<EsmError>)
    requires Valid(first) && 1 <= m <= 12 && ys != []
    requires forall i, j :: 0 <= i < monthly.Length0 && 0 <= j < monthly.Length1 ==> monthly[i, j] == 0.0
    modifies monthly
    ensures e == YearsError(ds, first, ys, |ys|, m)
    ensures e.None? ==> forall i, j :: 0 <= i < monthly.Length0 && 0 <= j < monthly.Length1 ==>
      monthly[i, j] == MonthValue(ds, first, ys[|ys| - 1], m, "sum", i, j)
  {
    var sum := new real[monthly.Length0, monthly.Length1]((i, j) => 0.0);
    var k := 0;
    while k < |ys|
      invariant 0 <= k <= |ys|
      invariant YearsError(ds, first, ys, k, m).None?
      invariant sum != monthly && sum.Length0 == monthly.Length0 && sum.Length1 == monthly.Length1
      invariant forall i, j :: 0 <= i < monthly.Length0 && 0 <= j < monthly.Length1 ==> monthly[i, j] == 0.0
      invariant k > 0 ==> forall i, j :: 0 <= i < sum.Length0 && 0 <= j < sum.Length1 ==>
        sum[i, j] == MonthValue(ds, first, ys[k - 1], m, "sum", i, j)
    {
      sum := new real[monthly.Length0, monthly.Length1]((i, j) => 0.0);
      var err, _ := SumDays(ds, first, ys[k], m, false, sum);
      if err.Some? {
        YearsErrorStays(ds, first, ys, k + 1, |ys|, m);
        return err;
      }
      k := k + 1;
    }
    AddInto(monthly, sum);
    e := None;
  }

  /** Lines 40-60 as written for month `m`: the last year's sum, divided
      by the number of years for "mean". */
  method MonthAsWritten(ds: NetCdf, first: Date, ys: seq<int>, m: int, name: string)
      returns (e: Option<EsmError>, result: array2<real>)
    requires Valid(first) && 1 <= m <= 12 && ys != []
    ensures e == YearsError(ds, first, ys, |ys|, m)
    ensures result.Length0 == ds.ysize && result.Length1 == ds.xsize
    ensures e.None? ==> forall i, j :: 0 <= i < ds.ysize && 0 <= j < ds.xsize ==>
      result[i, j] == LastYearPixel(ds, first, ys, m, name, i, j)
  {
    var monthly := new real[ds.ysize, ds.xsize]((i, j) => 0.0);
    e := SumYearsAsWritten(ds, first, ys, m, monthly);
    result := monthly;
    if e.None? && name == "mean" {
      DivideBy(result, |ys| as real);
    }
  }

  /** Two years, January, and a pixel that is 1.0 on every day: as
      written the pixel is 31.0, the sum of the last January alone, where
      the sum over both years is 62.0. */
  lemma LastYearOnly(ds: NetCdf, first: Date, y0: int, y1: int, i: int, j: int)
    requires Valid(first)
    requires forall b :: 0 <= b < |ds.bands| ==> DayValue(ds.bands[b], i, j) == 1.0
    requires YearsError(ds, first, [y0, y1], 2, 1).None?
    ensures LastYearPixel(ds, first, [y0, y1], 1, "sum", i, j) == 31.0
    ensures MonthPixel(ds, first, [y0, y1], 1, "sum", "sum", i, j) == 62.0
  {
    var ys := [y0, y1];
    YearsErrorNone(ds, first, ys, 2, 1);
    var vs := MonthValues(ds, first, ys, 1, "sum", i, j);
    forall t | 0 <= t < 2
      ensures vs[t] == 31.0
    {
      MonthSumConstant(ds, first, ys[t], 1, i, j, 1.0);
    }
    SumConstant(vs, 31.0);
    YearsSumIsSum(ds, first, ys, 2, 1, "sum", i, j);
    assert vs[..2] == vs;
  }

  /** The sum of a readable month whose bands are all `c` at `(i, j)`. */
  lemma MonthSumConstant(ds: NetCdf, first: Date, y: int, m: int, i: int, j: int, c: real)
    requires Valid(first) && 1 <= m <= 12
    requires forall b :: 0 <= b < |ds.bands| ==> DayValue(ds.bands[b], i, j) == c
    requires MonthError(ds, first, y, m).None?
    ensures MonthValue(ds, first, y, m, "sum", i, j) == (MonthLength(y, m) as real) * c
  {
    RunSumConstant(ds, MonthStart(first, y, m), MonthLength(y, m), i, j, c);
  }

  // ---------------------------------------------------------------------
  // The conversion with line 56 corrected
  //
  // From here on `monthly_sum += sum_array` is taken to be inside the year
  // loop, so every year is added. The exceptions are those of the code as
  // written: `MonthAsWritten` fails with the same `YearsError`, and only
  // the pixels differ, as `LastYearOnly` shows.

  /** Month `m` with line 56 corrected: its GeoTIFF, or the exception
      raised while reading it. Nothing checks the pixels written. */
  function LegacyOutcome(ds: NetCdf, first: Date, ys: seq<int>, m: int, name: string, base: string)
      : Result<Output, EsmError>
    requires Valid(first) && 1 <= m <= 12 && ys != []
  {
    match YearsError(ds, first, ys, |ys|, m)
    case Some(e) => Err(e)
    case None => Ok(Output(OutputName(base, ys, m), MonthGrid(ds, first, ys, m, "sum", name)))
  }

  /** The outcomes of the twelve months, in order. */
  function LegacyOutcomes(ds: NetCdf, first: Date, ys: seq<int>, name: string, base: string)
      : (rs: seq<Result<Output, EsmError>>)
    requires Valid(first) && ys != []
    ensures |rs| == 12
  {
    seq(12, k requires 0 <= k < 12 => LegacyOutcome(ds, first, ys, k + 1, name, base))
  }

  /** `main(filepath, years, method)` with line 56 corrected: the first
      and last days, then the twelve months, stopping at the first
      exception. */
  function LegacyConvert(ds: NetCdf, filepath: string, ys: seq<int>, name: string): Conversion
  {
    var base := Basename(Splitext(filepath).0);
    match ReadFirstLastDays(ds)
    case Err(e) => Conversion([], None, Some(e))
    case Ok(days) =>
      if ys == [] then Conversion([], None, Some(NoYears))
      else
        var months := Collect(LegacyOutcomes(ds, days.0, ys, name, base));
        Conversion(months.0, None, months.1)
  }

  /** Lines 40-60 for month `m` with line 56 corrected, so that every
      year's sum is added. */
  method LegacyMonth(ds: NetCdf, first: Date, ys: seq<int>, m: int, name: string, base: string)
      returns (r: Result<Output, EsmError>)
    requires Valid(first) && 1 <= m <= 12 && ys != []
    ensures r == LegacyOutcomes(ds, first, ys, name, base)[m - 1]
  {
    var monthly := new real[ds.ysize, ds.xsize]((i, j) => 0.0);
    var e, _ := SumYears(ds, first, ys, m, "sum", false, monthly);
    if e.Some? {
      return Err(e.value);
    }
    var result := monthly;
    if name == "mean" {
      result := new real[ds.ysize, ds.xsize];
      forall i, j | 0 <= i < ds.ysize && 0 <= j < ds.xsize {
        result[i, j] := monthly[i, j] / (|ys| as real);
      }
    }
    var g := Snapshot(result);
    assert g == MonthGrid(ds, first, ys, m, "sum", name) by {
      var h := MonthGrid(ds, first, ys, m, "sum", name);
      forall i | 0 <= i < ds.ysize
        ensures g[i] == h[i]
      {
        assert forall j | 0 <= j < ds.xsize :: g[i][j] == result[i, j];
      }
    }
    r := Ok(Output(OutputName(base, ys, m), g));
  }

  /** The month loop of line 39 over the corrected months. */
  method LegacyMonths(ds: NetCdf, first: Date, ys: seq<int>, name: string, base: string)
      returns (outputs: seq<Output>, e: Option<EsmError>)
    requires Valid(first) && ys != []
    ensures (outputs, e) == Collect(LegacyOutcomes(ds, first, ys, name, base))
  {
    ghost var rs := LegacyOutcomes(ds, first, ys, name, base);
    outputs := [];
    var m := 1;
    while m <= 12
      invariant 1 <= m <= 13
      invariant Collect(rs[..m - 1]) == (outputs, None)
    {
      var r := LegacyMonth(ds, first, ys, m, name, base);
      CollectNext(rs, m, outputs);
      if r.Err? {
        assert Collect(rs) == (outputs, Some(r.error));
        return outputs, Some(r.error);
      }
      outputs := outputs + [r.value];
      m := m + 1;
    }
    assert rs[..12] == rs;
    e := None;
  }

  /** `main` of lines 24-71 with line 56 corrected, the logging left out
      and the files written as values. */
  method LegacyConvertMonthly(ds: NetCdf, filepath: string, ys: seq<int>, name: string) returns (c: Conversion)
    ensures c == LegacyConvert(ds, filepath, ys, name)
  {
    var base := Basename(Splitext(filepath).0);
    var days := ReadFirstLastDays(ds);
    if days.Err? {
      return Conversion([], None, Some(days.error));
    }
    if ys == [] {
      return Conversion([], None, Some(NoYears));
    }
    var outputs, e := LegacyMonths(ds, days.value.0, ys, name, base);
    c := Conversion(outputs, None, e);
  }

  // ---------------------------------------------------------------------
  // Properties of the conversion

  /** Every pixel written is the sum of the month over all the years, or
      their mean for "mean". */
  lemma EveryYearCounts(ds: NetCdf, first: Date, ys: seq<int>, m: int, name: string, base: string,
                        o: Output, i: int, j: int)
    requires Valid(first) && 1 <= m <= 12 && ys != []
    requires LegacyOutcome(ds, first, ys, m, name, base) == Ok(o)
    requires 0 <= i < ds.ysize && 0 <= j < ds.xsize
    ensures |o.pixels| == ds.ysize && |o.pixels[i]| == ds.xsize
    ensures var s := Sum(MonthValues(ds, first, ys, m, "sum", i, j));
      o.pixels[i][j] == (if name == "mean" then s / (|ys| as real) else s)
  {
    var vs := MonthValues(ds, first, ys, m, "sum", i, j);
    YearsSumIsSum(ds, first, ys, |ys|, m, "sum", i, j);
    assert vs[..|ys|] == vs;
  }

  /** The first version, with line 56 corrected, writes what the later
      conversion writes with the month method "sum", and differs from it
      only where the later one refuses a month with no pixel at or above
      zero. */
  lemma LaterAddsPixelCheck(ds: NetCdf, first: Date, ys: seq<int>, m: int, name: string, base: string)
    requires Valid(first) && 1 <= m <= 12 && ys != []
    ensures var r := LegacyOutcome(ds, first, ys, m, name, base);
      MonthOutcome(ds, first, ys, m, "sum", name, base) ==
        if r.Ok? && SelectAll(r.value.pixels, NonNegative) == [] then Err(NoValidPixels) else r
  {
  }

  /** The corrected month loop writes the GeoTIFFs of the months from
      January on, in order and under their own names: all twelve when
      nothing is raised. */
  lemma LegacyMonthsWritten(ds: NetCdf, first: Date, ys: seq<int>, name: string, base: string)
    requires Valid(first) && ys != []
    ensures var c := Collect(LegacyOutcomes(ds, first, ys, name, base));
      && |c.0| <= 12
      && (c.1.None? ==> |c.0| == 12)
      && forall k :: 0 <= k < |c.0| ==>
           c.0[k] == Output(OutputName(base, ys, k + 1), MonthGrid(ds, first, ys, k + 1, "sum", name))
  {
    var rs := LegacyOutcomes(ds, first, ys, name, base);
    var want := seq(12, k requires 0 <= k < 12 =>
      Output(OutputName(base, ys, k + 1), MonthGrid(ds, first, ys, k + 1, "sum", name)));
    forall k | 0 <= k < 12 && rs[k].Ok?
      ensures rs[k].value == want[k]
    {
      LegacyOutcomeOk(ds, first, ys, k + 1, name, base, rs[k].value);
    }
    CollectExpected(rs, want);
  }

  /** A month that is written holds its name and its grid. */
  lemma LegacyOutcomeOk(ds: NetCdf, first: Date, ys: seq<int>, m: int, name: string, base: string, o: Output)
    requires Valid(first) && 1 <= m <= 12 && ys != []
    requires LegacyOutcome(ds, first, ys, m, name, base) == Ok(o)
    ensures o == Output(OutputName(base, ys, m), MonthGrid(ds, first, ys, m, "sum", name))
  {
  }

  /** The months raise only `MissingBand`, `NoNodata` or `InvalidDate`. */
  lemma {:induction false} YearsErrorKinds(ds: NetCdf, first: Date, ys: seq<int>, k: nat, m: int)
    requires Valid(first) && 1 <= m <= 12 && k <= |ys|
    ensures YearsError(ds, first, ys, k, m) in {None, Some(MissingBand), Some(NoNodata), Some(InvalidDate)}
  {
    if k > 0 {
      YearsErrorKinds(ds, first, ys, k - 1, m);
      var y := ys[k - 1];
      if ValidYear(y) {
        RunErrorKinds(ds, MonthStart(first, y, m), MonthLength(y, m));
      }
    }
  }

  lemma {:induction false} RunErrorKinds(ds: NetCdf, k0: int, n: nat)
    ensures RunError(ds, k0, n) in {None, Some(MissingBand), Some(NoNodata)}
  {
    if n > 0 {
      RunErrorKinds(ds, k0, n - 1);
    }
  }

  /** The month loop raises neither `IndexError` nor anything but a
      missing band, a band without a nodata value or a day outside the
      calendar. */
  lemma MonthsRaise(ds: NetCdf, first: Date, ys: seq<int>, name: string, base: string)
    requires Valid(first) && ys != []
    ensures Collect(LegacyOutcomes(ds, first, ys, name, base)).1 in {None, Some(MissingBand), Some(NoNodata), Some(InvalidDate)}
  {
    var rs := LegacyOutcomes(ds, first, ys, name, base);
    CollectMeaning(rs);
    var c := Collect(rs);
    if c.1.Some? {
      var m := |c.0| + 1;
      YearsErrorKinds(ds, first, ys, |ys|, m);
    }
  }

  // ---------------------------------------------------------------------
  // The command line

  /** How the first version's run ends, when it does not end normally. */
  datatype LegacyFailure =
    | Usage(usage: CliError)   // raised before `main` is called
    | Raised(raised: EsmError) // raised by `main`
    | FallbackTypeError        // the `except IndexError` calls `main` with one argument

  /** The GeoTIFFs a run writes and how it ends. */
  datatype LegacyRun = LegacyRun(outputs: seq<Output>, failure: Option<LegacyFailure>)

  /** Lines 74-83: the years "Y0:Y1", one method "sum" or "mean", and
      `main`, with line 56 corrected, called inside `try`; an `IndexError`
      from `years[1]` or from `main` itself leads to the call in the
      `except` branch, which lacks two arguments. */
  function LegacyScript(argv: seq<string>, ds: NetCdf): LegacyRun
  {
    if |argv| < 3 then LegacyRun([], Some(Usage(MissingArgument)))
    else match ParseInts(Split(argv[2], ':'))
      case None => LegacyRun([], Some(Usage(YearNotInteger)))
      case Some(years) =>
        if |argv| < 4 then LegacyRun([], Some(Usage(MissingArgument)))
        else if !KnownMethod(argv[3]) then LegacyRun([], Some(Usage(UnknownMethod(argv[3]))))
        else LegacyTry(ds, argv[1], years, argv[3])
  }

  /** Lines 78-83: the `try` around the corrected `main` on the years
      `years[0]` to `years[1]`, and the `except IndexError` branch. */
  function LegacyTry(ds: NetCdf, filepath: string, years: seq<int>, name: string): LegacyRun
  {
    if |years| < 2 then LegacyRun([], Some(FallbackTypeError))
    else
      var c := LegacyConvert(ds, filepath, Range(years[0], years[1] + 1, 1), name);
      if c.error == Some(UnitsTooShort) then LegacyRun(c.outputs, Some(FallbackTypeError))
      else LegacyRun(c.outputs, if c.error.None? then None else Some(Raised(c.error.value)))
  }

  /** The `except` branch is reached exactly when the years argument has
      one year, or when the time units have fewer than three words; and
      then nothing has been written. */
  lemma FallbackWhen(argv: seq<string>, ds: NetCdf)
    requires |argv| >= 4 && KnownMethod(argv[3]) && ParseInts(Split(argv[2], ':')).Some?
    ensures var r := LegacyScript(argv, ds);
      r.failure == Some(FallbackTypeError) <==>
        (|ParseInts(Split(argv[2], ':')).value| < 2 || ReadFirstDay(ds.timeUnits) == Err(UnitsTooShort))
    ensures var r := LegacyScript(argv, ds);
      r.failure == Some(FallbackTypeError) ==> r.outputs == []
  {
    var years := ParseInts(Split(argv[2], ':')).value;
    assert LegacyScript(argv, ds) == LegacyTry(ds, argv[1], years, argv[3]);
    LegacyTryFallback(ds, argv[1], years, argv[3]);
  }

  lemma LegacyTryFallback(ds: NetCdf, filepath: string, years: seq<int>, name: string)
    ensures var r := LegacyTry(ds, filepath, years, name);
      && (r.failure == Some(FallbackTypeError) <==> (|years| < 2 || ReadFirstDay(ds.timeUnits) == Err(UnitsTooShort)))
      && (r.failure == Some(FallbackTypeError) ==> r.outputs == [])
  {
    if |years| >= 2 {
      LegacyIndexError(ds, filepath, Range(years[0], years[1] + 1, 1), name);
    }
  }

  /** `main` raises `IndexError` exactly when the time units have fewer
      than three words, and then before writing anything. */
  lemma LegacyIndexError(ds: NetCdf, filepath: string, ys: seq<int>, name: string)
    ensures var c := LegacyConvert(ds, filepath, ys, name);
      (c.error == Some(UnitsTooShort) <==> ReadFirstDay(ds.timeUnits) == Err(UnitsTooShort))
      && (c.error == Some(UnitsTooShort) ==> c.outputs == [])
  {
    var days := ReadFirstLastDays(ds);
    if days.Ok? && ys != [] {
      MonthsRaise(ds, days.value.0, ys, name, Basename(Splitext(filepath).0));
    }
  }

  /** A command line "file Y0:Y1 method" with a known method runs the
      corrected `main` on the years Y0 to Y1, whenever the time units can
      be indexed. */
  lemma LegacyScriptRuns(argv: seq<string>, ds: NetCdf, y0: int, y1: int)
    requires |argv| >= 4 && argv[2] == IntStr(y0) + ":" + IntStr(y1) && KnownMethod(argv[3])
    requires ReadFirstDay(ds.timeUnits) != Err(UnitsTooShort)
    ensures var c := LegacyConvert(ds, argv[1], Range(y0, y1 + 1, 1), argv[3]);
      LegacyScript(argv, ds) == LegacyRun(c.outputs, if c.error.None? then None else Some(Raised(c.error.value)))
  {
    YearsArgument(y0, y1);
    var years := ParseInts(Split(argv[2], ':')).value;
    assert years == [y0, y1];
    assert |argv| >= 3 && |argv| >= 4 && KnownMethod(argv[3]) && |years| >= 2;
    assert LegacyScript(argv, ds) == LegacyTry(ds, argv[1], years, argv[3]);
    LegacyTryRuns(ds, argv[1], years, argv[3]);
  }

  lemma LegacyTryRuns(ds: NetCdf, filepath: string, years: seq<int>, name: string)
    requires |years| >= 2 && ReadFirstDay(ds.timeUnits) != Err(UnitsTooShort)
    ensures var c := LegacyConvert(ds, filepath, Range(years[0], years[1] + 1, 1), name);
      LegacyTry(ds, filepath, years, name) == LegacyRun(c.outputs, if c.error.None? then None else Some(Raised(c.error.value)))
  {
    LegacyIndexError(ds, filepath, Range(years[0], years[1] + 1, 1), name);
  }
}
