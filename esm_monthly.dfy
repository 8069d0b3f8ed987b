/** The daily-to-monthly NetCDF conversion: the first date read from the
    `time#units` metadata, one band per day counted from it, and for each
    calendar month the daily values of every requested year summed or
    averaged, skipping nodata pixels, with an optional count of rain days. */
module EsmMonthly {
  import opened Wrappers
  import opened Strings
  import opened Ranges
  import opened Paths
  import opened Calendar

  // ---------------------------------------------------------------------
  // The dataset

  /** One daily band: its float32 pixels, as reals, and its nodata value,
      which `GetNoDataValue` gives as `None` when the band declares none. */
  datatype Band = Band(nodata: Option<real>, pixels: seq<seq<real>>)

  /** The NetCDF file as GDAL presents it: the two metadata items the
      script reads, the raster size and the bands in order. */
  datatype NetCdf = NetCdf(timeUnits: Option<string>, precipUnits: Option<string>,
                           xsize: nat, ysize: nat, bands: seq<Band>)

  /** Every band is `ysize` rows of `xsize` pixels. */
  predicate Shaped(ds: NetCdf)
  {
    forall k :: 0 <= k < |ds.bands| ==> BandShaped(ds.bands[k], ds.xsize, ds.ysize)
  }

  predicate BandShaped(b: Band, xsize: nat, ysize: nat)
  {
    |b.pixels| == ysize && forall i :: 0 <= i < ysize ==> |b.pixels[i]| == xsize
  }

  /** The Python exceptions of the conversion. */
  datatype EsmError =
    | UnitsAssertion      // the `assert` on the precipitation units
    | NoTimeUnits         // `None.split`: the metadata item is missing
    | UnitsTooShort       // `IndexError`: fewer than three words
    | DateNotThreeParts   // `ValueError`: the date has not three fields
    | DateNotInteger      // `ValueError` of `int()`
    | InvalidDate         // `ValueError` of `datetime.date`
    | DateOverflow        // `OverflowError` of adding the band count
    | NoYears             // `ValueError` of `min([])`
    | MissingBand         // `GetRasterBand` returns `None`
    | NoNodata            // `TypeError` of `numpy.isclose(band_array, None)`
    | NoValidPixels       // `ValueError` of `numpy.min` on no pixel >= 0

  // ---------------------------------------------------------------------
  // The first and last days

  /** The date in the third word of `time#units`, like
      "days since 1850-1-1". */
  function ReadFirstDay(units: Option<string>): Result<Date, EsmError>
  {
    if units.None? then Err(NoTimeUnits)
    else
      var words := Split(units.value, ' ');
      if |words| < 3 then Err(UnitsTooShort)
      else
        var fields := Split(words[2], '-');
        if |fields| != 3 then Err(DateNotThreeParts)
        else match ParseInts(fields)
          case None => Err(DateNotInteger)
          case Some(v) =>
            match MakeDate(v[0], v[1], v[2])
            case None => Err(InvalidDate)
            case Some(d) => Ok(d)
  }

  /** `read_first_last_days`: the first day, and the day the band count
      after it. */
  function ReadFirstLastDays(ds: NetCdf): (r: Result<(Date, Date), EsmError>)
    ensures r.Ok? ==> (Valid(r.value.0) && Valid(r.value.1) &&
                       Ordinal(r.value.1) == Ordinal(r.value.0) + |ds.bands|)
    ensures r.Err? ==> ReadFirstDay(ds.timeUnits).Err? || r.error == DateOverflow
  {
    match ReadFirstDay(ds.timeUnits)
    case Err(e) => Err(e)
    case Ok(first) =>
      match AddDays(first, |ds.bands|)
      case None => Err(DateOverflow)
      case Some(last) => Ok((first, last))
  }

  /** A date written as "Y-M-D" with positive fields. */
  function DateText(d: Date): string
  {
    IntStr(d.year) + "-" + IntStr(d.month) + "-" + IntStr(d.day)
  }

  lemma SplitThreeBy(x: string, y: string, z: string, sep: char)
    requires sep !in x && sep !in y && sep !in z
    ensures Split(x + [sep] + y + [sep] + z, sep) == [x, y, z]
  {
    var parts := [x, y, z];
    assert JoinWith(parts, sep) == x + [sep] + y + [sep] + z by {
      assert JoinWith(parts[2..], sep) == z;
    }
    SplitJoin(parts, sep);
  }

  lemma NatNoMinus(i: int)
    requires i >= 0
    ensures '-' !in IntStr(i) && ' ' !in IntStr(i)
  {
    IntStrChars(i, ' ');
    assert AllDigits(NatStr(i));
  }

  /** Metadata of the documented form "<word> <word> Y-M-D" gives back
      the date. */
  lemma ReadDateText(d: Date, a: string, b: string)
    requires Valid(d) && ' ' !in a && ' ' !in b
    ensures ReadFirstDay(Some(a + " " + b + " " + DateText(d))) == Ok(d)
  {
    NatNoMinus(d.year);
    NatNoMinus(d.month);
    NatNoMinus(d.day);
    var t := DateText(d);
    assert ' ' !in t;
    SplitThreeBy(a, b, t, ' ');
    SplitThreeBy(IntStr(d.year), IntStr(d.month), IntStr(d.day), '-');
    ParseIntsOfStrs([IntStr(d.year), IntStr(d.month), IntStr(d.day)], [d.year, d.month, d.day]);
  }

  // ---------------------------------------------------------------------
  // Days and bands

  /** GDAL numbers the bands from 1: the first day is band 1 and band
      `k` holds the day `k - 1` days later. */
  function BandIndex(first: Date, d: Date): int
    requires Valid(first) && Valid(d)
  {
    DaysBetween(d, first) + 1
  }

  /** The first day is band 1, and consecutive days have consecutive
      bands, across month and year ends too. */
  lemma BandIndexes(first: Date, d: Date)
    requires Valid(first) && Valid(d) && d != Date(MaxYear, 12, 31)
    ensures BandIndex(first, first) == 1
    ensures Valid(Tomorrow(d)) && BandIndex(first, Tomorrow(d)) == BandIndex(first, d) + 1
  {
    NextDay(d);
  }

  /** No two days share a band. */
  lemma BandIndexInjective(first: Date, a: Date, b: Date)
    requires Valid(first) && Valid(a) && Valid(b) && BandIndex(first, a) == BandIndex(first, b)
    ensures a == b
  {
    OrdinalInjective(a, b);
  }

  /** The days of `range(1, monthrange(y, m)[1] + 1)`. */
  function MonthDays(y: int, m: int): seq<int>
    requires 1 <= m <= 12
  {
    Range(1, MonthLength(y, m) + 1, 1)
  }

  /** The day loop visits exactly the days of the month, so February 29
      only in leap years. */
  lemma MonthDaysValid(y: int, m: int, d: int)
    requires MinYear <= y <= MaxYear && 1 <= m <= 12
    ensures d in MonthDays(y, m) <==> Valid(Date(y, m, d))
    ensures m == 2 ==> (29 in MonthDays(y, m) <==> IsLeap(y))
  {
    RangeMember(1, MonthLength(y, m) + 1, 1, d);
    RangeMember(1, MonthLength(y, m) + 1, 1, 29);
  }

  /** `ds.GetRasterBand(k)`: bands are numbered from 1, and an index
      outside gives `None`. */
  function GetRasterBand(ds: NetCdf, k: int): Option<Band>
  {
    if 1 <= k <= |ds.bands| then Some(ds.bands[k - 1]) else None
  }

  /** The band index of the first day of month `m` of year `y`. */
  function MonthStart(first: Date, y: int, m: int): int
    requires Valid(first) && ValidYear(y) && 1 <= m <= 12
  {
    BandIndex(first, Date(y, m, 1))
  }

  /** Day `d` of a month is `d - 1` bands after its first day. */
  lemma DayIndex(first: Date, y: int, m: int, d: int)
    requires Valid(first) && Valid(Date(y, m, d))
    ensures ValidYear(y) && BandIndex(first, Date(y, m, d)) == MonthStart(first, y, m) + d - 1
  {
  }

  // ---------------------------------------------------------------------
  // Pixels

  function Abs(x: real): real
  {
    if x < 0.0 then -x else x
  }

  /** `numpy.isclose(a, b)` with its default tolerances. */
  predicate IsClose(a: real, b: real)
  {
    Abs(a - b) <= 0.00000001 + 0.00001 * Abs(b)
  }

  /** `~array_mask`: the value is close to the band's nodata value. A band
      without one never reaches the mask: `RunError` stops at it first. */
  predicate Masked(v: real, nodata: Option<real>)
  {
    nodata.Some? && IsClose(v, nodata.value)
  }

  /** The pixel `(i, j)` of a band; nothing off the raster. */
  function PixelAt(b: Band, i: int, j: int): real
  {
    if 0 <= i < |b.pixels| && 0 <= j < |b.pixels[i]| then b.pixels[i][j] else 0.0
  }

  /** What the masked add takes from the band at `(i, j)`: the pixel, or
      nothing when it is close to nodata. */
  function DayValue(b: Band, i: int, j: int): real
  {
    var v := PixelAt(b, i, j);
    if Masked(v, b.nodata) then 0.0 else v
  }

  /** `row[keep(row)]`: the values of a row that `keep` selects, in order. */
  function Select(row: seq<real>, keep: real -> bool): (r: seq<real>)
    ensures forall v :: v in r ==> keep(v)
  {
    if row == [] then []
    else Select(row[..|row| - 1], keep) + (if keep(row[|row| - 1]) then [row[|row| - 1]] else [])
  }

  /** `a[keep(a)]` for a two-dimensional `a`: the selected values, row by row. */
  function SelectAll(g: seq<seq<real>>, keep: real -> bool): (r: seq<real>)
    ensures forall v :: v in r ==> keep(v)
  {
    if g == [] then [] else SelectAll(g[..|g| - 1], keep) + Select(g[|g| - 1], keep)
  }

  lemma {:induction false} SelectEmpty(row: seq<real>, keep: real -> bool)
    ensures Select(row, keep) == [] <==> forall j :: 0 <= j < |row| ==> !keep(row[j])
  {
    if row != [] {
      var init := row[..|row| - 1];
      SelectEmpty(init, keep);
      assert forall j :: 0 <= j < |init| ==> init[j] == row[j];
    }
  }

  /** Nothing is selected exactly when no value qualifies. */
  lemma {:induction false} SelectAllEmpty(g: seq<seq<real>>, keep: real -> bool)
    ensures SelectAll(g, keep) == [] <==> forall i, j :: 0 <= i < |g| && 0 <= j < |g[i]| ==> !keep(g[i][j])
  {
    if g != [] {
      var init := g[..|g| - 1];
      SelectAllEmpty(init, keep);
      SelectEmpty(g[|g| - 1], keep);
      assert forall i :: 0 <= i < |init| ==> init[i] == g[i];
    }
  }

  /** `result >= 0`. */
  function NonNegative(v: real): bool
  {
    v >= 0.0
  }

  /** `(band_array > 0.1) & array_mask`: more than 0.1 mm and not nodata. */
  function WetAt(nodata: Option<real>): real -> bool
  {
    v => !Masked(v, nodata) && v > 0.1
  }

  /** Some valid pixel of the day exceeds 0.1 mm. */
  predicate Rainy(b: Band)
  {
    SelectAll(b.pixels, WetAt(b.nodata)) != []
  }

  /** The day is rainy exactly when one of its valid pixels exceeds 0.1 mm. */
  lemma RainyMeaning(b: Band)
    ensures Rainy(b) <==> exists i, j :: (0 <= i < |b.pixels| && 0 <= j < |b.pixels[i]| &&
                                          !Masked(b.pixels[i][j], b.nodata) && b.pixels[i][j] > 0.1)
  {
    SelectAllEmpty(b.pixels, WetAt(b.nodata));
  }

  // ---------------------------------------------------------------------
  // Runs of consecutive bands: the days of one month

  /** The band `k`, or an empty band where GDAL has none. */
  function BandAt(ds: NetCdf, k: int): Band
  {
    if 1 <= k <= |ds.bands| then ds.bands[k - 1] else Band(None, [])
  }

  /** The error of the first of the bands `k0` to `k0 + n - 1` that cannot
      be read: `MissingBand` when it is missing, `NoNodata` when it has no
      nodata value. */
  function RunError(ds: NetCdf, k0: int, n: nat): Option<EsmError>
  {
    if n == 0 then None
    else
      var e := RunError(ds, k0, n - 1);
      if e.Some? then e
      else if GetRasterBand(ds, k0 + n - 1).None? then Some(MissingBand)
      else if GetRasterBand(ds, k0 + n - 1).value.nodata.None? then Some(NoNodata)
      else None
  }

  /** Band `k` exists and declares a nodata value. */
  predicate Readable(ds: NetCdf, k: int)
  {
    GetRasterBand(ds, k).Some? && GetRasterBand(ds, k).value.nodata.Some?
  }

  /** A run of bands reads without error exactly when every band of it is
      there and has a nodata value. */
  lemma {:induction false} RunErrorNone(ds: NetCdf, k0: int, n: nat)
    ensures RunError(ds, k0, n).None? <==> forall k :: k0 <= k < k0 + n ==> Readable(ds, k)
  {
    if n > 0 {
      RunErrorNone(ds, k0, n - 1);
      if RunError(ds, k0, n - 1).None? {
        assert RunError(ds, k0, n).None? <==> Readable(ds, k0 + n - 1);
      } else {
        var k :| k0 <= k < k0 + n - 1 && !Readable(ds, k);
        assert k0 <= k < k0 + n;
      }
    }
  }

  /** The masked sum of the bands `k0` to `k0 + n - 1` at pixel `(i, j)`. */
  function RunSum(ds: NetCdf, k0: int, n: nat, i: int, j: int): real
  {
    if n == 0 then 0.0 else RunSum(ds, k0, n - 1, i, j) + DayValue(BandAt(ds, k0 + n - 1), i, j)
  }

  /** How many of the bands `k0` to `k0 + n - 1` are rain days. */
  function RunRainy(ds: NetCdf, k0: int, n: nat): (c: nat)
    ensures c <= n
  {
    if n == 0 then 0 else RunRainy(ds, k0, n - 1) + (if Rainy(BandAt(ds, k0 + n - 1)) then 1 else 0)
  }

  /** Why month `m` of year `y` cannot be read: its days do not exist
      (the year is outside 1 to 9999), or one of them has no band. */
  function MonthError(ds: NetCdf, first: Date, y: int, m: int): Option<EsmError>
    requires Valid(first) && 1 <= m <= 12
  {
    if !ValidYear(y) then Some(InvalidDate)
    else RunError(ds, MonthStart(first, y, m), MonthLength(y, m))
  }

  /** Month `m` of year `y` at pixel `(i, j)`: the sum of its days, or
      their mean when the month method is "mean". */
  function MonthValue(ds: NetCdf, first: Date, y: int, m: int, monthMethod: string, i: int, j: int): real
    requires Valid(first) && 1 <= m <= 12
  {
    if !ValidYear(y) then 0.0
    else
      var n := MonthLength(y, m);
      var s := RunSum(ds, MonthStart(first, y, m), n, i, j);
      if monthMethod == "mean" then s / (n as real) else s
  }

  /** The rain days of month `m` of year `y`. */
  function MonthRainyDays(ds: NetCdf, first: Date, y: int, m: int): nat
    requires Valid(first) && 1 <= m <= 12
  {
    if !ValidYear(y) then 0 else RunRainy(ds, MonthStart(first, y, m), MonthLength(y, m))
  }

  /** The month's values over the first `k` years of `ys`, added up. */
  function YearsSum(ds: NetCdf, first: Date, ys: seq<int>, k: nat, m: int, monthMethod: string, i: int, j: int): real
    requires Valid(first) && 1 <= m <= 12 && k <= |ys|
  {
    if k == 0 then 0.0
    else YearsSum(ds, first, ys, k - 1, m, monthMethod, i, j) + MonthValue(ds, first, ys[k - 1], m, monthMethod, i, j)
  }

  /** The output pixel: the sum over the years, or its mean over them when
      the year method is "mean". */
  function MonthPixel(ds: NetCdf, first: Date, ys: seq<int>, m: int, monthMethod: string, yearMethod: string,
                      i: int, j: int): real
    requires Valid(first) && 1 <= m <= 12 && ys != []
  {
    var s := YearsSum(ds, first, ys, |ys|, m, monthMethod, i, j);
    if yearMethod == "mean" then s / (|ys| as real) else s
  }

  /** The error of the first of the first `k` years whose month cannot be
      read. */
  function YearsError(ds: NetCdf, first: Date, ys: seq<int>, k: nat, m: int): Option<EsmError>
    requires Valid(first) && 1 <= m <= 12 && k <= |ys|
  {
    if k == 0 then None
    else
      var e := YearsError(ds, first, ys, k - 1, m);
      if e.Some? then e else MonthError(ds, first, ys[k - 1], m)
  }

  /** The rain days of the month over the first `k` years of `ys`: the
      total of the month's counter. */
  function YearsRainyDays(ds: NetCdf, first: Date, ys: seq<int>, k: nat, m: int): nat
    requires Valid(first) && 1 <= m <= 12 && k <= |ys|
  {
    if k == 0 then 0
    else YearsRainyDays(ds, first, ys, k - 1, m) + MonthRainyDays(ds, first, ys[k - 1], m)
  }

  lemma {:induction false} RunErrorStays(ds: NetCdf, k0: int, d: nat, n: nat)
    requires d <= n && RunError(ds, k0, d).Some?
    ensures RunError(ds, k0, n) == RunError(ds, k0, d)
    decreases n - d
  {
    if d < n {
      RunErrorStays(ds, k0, d, n - 1);
    }
  }

  lemma {:induction false} YearsErrorStays(ds: NetCdf, first: Date, ys: seq<int>, k: nat, n: nat, m: int)
    requires Valid(first) && 1 <= m <= 12 && k <= n <= |ys| && YearsError(ds, first, ys, k, m).Some?
    ensures YearsError(ds, first, ys, n, m) == YearsError(ds, first, ys, k, m)
    decreases n - k
  {
    if k < n {
      YearsErrorStays(ds, first, ys, k, n - 1, m);
    }
  }

  // ---------------------------------------------------------------------
  // The loops

  /** `daily_sum_array[array_mask] += band_array[array_mask]`: every pixel
      not close to nodata is added, the others stay as they are. */
  method AddValid(acc: array2<real>, b: Band)
    modifies acc
    ensures forall i, j :: 0 <= i < acc.Length0 && 0 <= j < acc.Length1 ==>
      acc[i, j] == old(acc[i, j]) + DayValue(b, i, j)
  {
    forall i, j | 0 <= i < acc.Length0 && 0 <= j < acc.Length1 {
      acc[i, j] := acc[i, j] + DayValue(b, i, j);
    }
  }

  /** `acc += other`, element by element. */
  method AddInto(acc: array2<real>, other: array2<real>)
    requires other != acc && other.Length0 == acc.Length0 && other.Length1 == acc.Length1
    modifies acc
    ensures forall i, j :: 0 <= i < acc.Length0 && 0 <= j < acc.Length1 ==>
      acc[i, j] == old(acc[i, j]) + other[i, j]
  {
    forall i, j | 0 <= i < acc.Length0 && 0 <= j < acc.Length1 {
      acc[i, j] := acc[i, j] + other[i, j];
    }
  }

  /** `acc /= n`, element by element. */
  method DivideBy(acc: array2<real>, n: real)
    requires n != 0.0
    modifies acc
    ensures forall i, j :: 0 <= i < acc.Length0 && 0 <= j < acc.Length1 ==>
      acc[i, j] == old(acc[i, j]) / n
  {
    forall i, j | 0 <= i < acc.Length0 && 0 <= j < acc.Length1 {
      acc[i, j] := acc[i, j] / n;
    }
  }

  /** One pass of the day loop (lines 88-100): day `d` is read and added,
      and counted when it rains; or the reason it cannot be read. */
  method AddDay(ds: NetCdf, first: Date, y: int, m: int, d: int, countRain: bool, daily: array2<real>)
      returns (e: Option<EsmError>, wet: bool)
    requires Valid(first)
    modifies daily
    ensures !Valid(Date(y, m, d)) ==> e == Some(InvalidDate)
    ensures Valid(Date(y, m, d)) ==>
      e == (if GetRasterBand(ds, BandIndex(first, Date(y, m, d))).None? then Some(MissingBand)
            else if GetRasterBand(ds, BandIndex(first, Date(y, m, d))).value.nodata.None? then Some(NoNodata)
            else None)
    ensures e.None? ==> Valid(Date(y, m, d)) && wet == (countRain && Rainy(BandAt(ds, BandIndex(first, Date(y, m, d)))))
    ensures e.None? ==> forall i, j :: 0 <= i < daily.Length0 && 0 <= j < daily.Length1 ==>
      daily[i, j] == old(daily[i, j]) + DayValue(BandAt(ds, BandIndex(first, Date(y, m, d))), i, j)
  {
    var date := MakeDate(y, m, d);
    if date.None? {
      return Some(InvalidDate), false;
    }
    var band := GetRasterBand(ds, BandIndex(first, date.value));
    if band.None? {
      return Some(MissingBand), false;
    }
    if band.value.nodata.None? {
      return Some(NoNodata), false;
    }
    AddValid(daily, band.value);
    e, wet := None, countRain && Rainy(band.value);
  }

  /** Lines 85-101 for one year: the day loop into the zero-filled
      `daily`, and the rain days when they are counted; or the error of
      the first day that cannot be read. */
  method SumDays(ds: NetCdf, first: Date, y: int, m: int, countRain: bool, daily: array2<real>)
      returns (e: Option<EsmError>, events: nat)
    requires Valid(first) && 1 <= m <= 12
    requires forall i, j :: 0 <= i < daily.Length0 && 0 <= j < daily.Length1 ==> daily[i, j] == 0.0
    modifies daily
    ensures e == MonthError(ds, first, y, m)
    ensures e.None? ==> events == (if countRain then MonthRainyDays(ds, first, y, m) else 0)
    ensures e.None? ==> ValidYear(y) && forall i, j :: 0 <= i < daily.Length0 && 0 <= j < daily.Length1 ==>
      daily[i, j] == RunSum(ds, MonthStart(first, y, m), MonthLength(y, m), i, j)
  {
    var n := MonthLength(y, m);
    ghost var k0 := if ValidYear(y) then MonthStart(first, y, m) else 0;
    events := 0;
    var d := 1;
    while d <= n
      invariant 1 <= d <= n + 1
      invariant d > 1 ==> ValidYear(y)
      invariant RunError(ds, k0, d - 1).None?
      invariant events == (if countRain then RunRainy(ds, k0, d - 1) else 0)
      invariant forall i, j :: 0 <= i < daily.Length0 && 0 <= j < daily.Length1 ==>
        daily[i, j] == RunSum(ds, k0, d - 1, i, j)
    {
      var err, wet := AddDay(ds, first, y, m, d, countRain, daily);
      if err.Some? {
        if Valid(Date(y, m, d)) {
          DayIndex(first, y, m, d);
          RunErrorStays(ds, k0, d, n);
        }
        return err, events;
      }
      DayIndex(first, y, m, d);
      ghost var b := BandAt(ds, k0 + d - 1);
      assert BandAt(ds, BandIndex(first, Date(y, m, d))) == b;
      forall i, j | 0 <= i < daily.Length0 && 0 <= j < daily.Length1
        ensures daily[i, j] == RunSum(ds, k0, d, i, j)
      {
        assert daily[i, j] == RunSum(ds, k0, d - 1, i, j) + DayValue(b, i, j);
      }
      if wet {
        events := events + 1;
      }
      d := d + 1;
    }
    e := None;
  }

  /** One pass of the year loop (lines 85-105): the month of year `y` into
      a fresh zero-filled array, divided by its length when the month
      method is "mean", and added to `total`; or the reason it cannot be
      read. */
  method AddYear(ds: NetCdf, first: Date, y: int, m: int, monthMethod: string, countRain: bool,
                 total: array2<real>) returns (e: Option<EsmError>, events: nat)
    requires Valid(first) && 1 <= m <= 12
    modifies total
    ensures e == MonthError(ds, first, y, m)
    ensures e.None? ==> events == (if countRain then MonthRainyDays(ds, first, y, m) else 0)
    ensures e.None? ==> forall i, j :: 0 <= i < total.Length0 && 0 <= j < total.Length1 ==>
      total[i, j] == old(total[i, j]) + MonthValue(ds, first, y, m, monthMethod, i, j)
  {
    var daily := new real[total.Length0, total.Length1]((i, j) => 0.0);
    e, events := SumDays(ds, first, y, m, countRain, daily);
    if e.None? {
      if monthMethod == "mean" {
        DivideBy(daily, MonthLength(y, m) as real);
      }
      AddInto(total, daily);
    }
  }

  /** Lines 84-105: the year loop, adding each year's month into the
      zero-filled `total`, and the month's rain counter. */
  method SumYears(ds: NetCdf, first: Date, ys: seq<int>, m: int, monthMethod: string, countRain: bool,
                  total: array2<real>) returns (e: Option<EsmError>, events: nat)
    requires Valid(first) && 1 <= m <= 12
    requires forall i, j :: 0 <= i < total.Length0 && 0 <= j < total.Length1 ==> total[i, j] == 0.0
    modifies total
    ensures e == YearsError(ds, first, ys, |ys|, m)
    ensures e.None? ==> events == (if countRain then YearsRainyDays(ds, first, ys, |ys|, m) else 0)
    ensures e.None? ==> forall i, j :: 0 <= i < total.Length0 && 0 <= j < total.Length1 ==>
      total[i, j] == YearsSum(ds, first, ys, |ys|, m, monthMethod, i, j)
  {
    events := 0;
    var k := 0;
    while k < |ys|
      invariant 0 <= k <= |ys|
      invariant YearsError(ds, first, ys, k, m).None?
      invariant events == (if countRain then YearsRainyDays(ds, first, ys, k, m) else 0)
      invariant forall i, j :: 0 <= i < total.Length0 && 0 <= j < total.Length1 ==>
        total[i, j] == YearsSum(ds, first, ys, k, m, monthMethod, i, j)
    {
      var err, ev := AddYear(ds, first, ys[k], m, monthMethod, countRain, total);
      if err.Some? {
        YearsErrorStays(ds, first, ys, k + 1, |ys|, m);
        return err, events;
      }
      assert YearsError(ds, first, ys, k + 1, m).None?;
      forall i, j | 0 <= i < total.Length0 && 0 <= j < total.Length1
        ensures total[i, j] == YearsSum(ds, first, ys, k + 1, m, monthMethod, i, j)
      {
      }
      events := events + ev;
      k := k + 1;
    }
    e := None;
  }

  // ---------------------------------------------------------------------
  // The months and the whole conversion

  /** A GeoTIFF the conversion writes: its file name and its pixels. */
  datatype Output = Output(name: string, pixels: seq<seq<real>>)

  /** What one run leaves behind: the GeoTIFFs written, the rain table
      (its file name and its rows) when one is written, and the exception
      that stopped the run, if any. */
  datatype Conversion = Conversion(outputs: seq<Output>, table: Option<(string, seq<(int, real)>)>,
                                   error: Option<EsmError>)

  /** `min(years)`. */
  function SeqMin(s: seq<int>): (r: int)
    requires s != []
    ensures r in s && forall x :: x in s ==> r <= x
  {
    if |s| == 1 then s[0]
    else
      var t := SeqMin(s[1..]);
      assert s == [s[0]] + s[1..];
      if s[0] <= t then s[0] else t
  }

  /** `max(years)`. */
  function SeqMax(s: seq<int>): (r: int)
    requires s != []
    ensures r in s && forall x :: x in s ==> x <= r
  {
    if |s| == 1 then s[0]
    else
      var t := SeqMax(s[1..]);
      assert s == [s[0]] + s[1..];
      if s[0] >= t then s[0] else t
  }

  /** `years_label`: the first and the last year. */
  function YearsLabel(ys: seq<int>): string
    requires ys != []
  {
    IntStr(SeqMin(ys)) + "-" + IntStr(SeqMax(ys))
  }

  /** The file name of month `m`, with the month written on two digits. */
  function OutputName(base: string, ys: seq<int>, m: nat): string
    requires ys != []
  {
    base + "-" + YearsLabel(ys) + "-" + Pad2(m) + ".tif"
  }

  /** The pixels of month `m`. */
  function MonthGrid(ds: NetCdf, first: Date, ys: seq<int>, m: int, monthMethod: string, yearMethod: string)
      : seq<seq<real>>
    requires Valid(first) && 1 <= m <= 12 && ys != []
  {
    GridRows(ds, first, ys, m, monthMethod, yearMethod, ds.ysize)
  }

  /** Row `i` of the output. */
  function GridRow(ds: NetCdf, first: Date, ys: seq<int>, m: int, monthMethod: string, yearMethod: string, i: int)
      : seq<real>
    requires Valid(first) && 1 <= m <= 12 && ys != []
  {
    seq(ds.xsize, j => MonthPixel(ds, first, ys, m, monthMethod, yearMethod, i, j))
  }

  /** The first `n` rows of the output. */
  function GridRows(ds: NetCdf, first: Date, ys: seq<int>, m: int, monthMethod: string, yearMethod: string, n: nat)
      : (g: seq<seq<real>>)
    requires Valid(first) && 1 <= m <= 12 && ys != []
    ensures |g| == n && forall i :: 0 <= i < n ==> g[i] == GridRow(ds, first, ys, m, monthMethod, yearMethod, i)
  {
    if n == 0 then [] else GridRows(ds, first, ys, m, monthMethod, yearMethod, n - 1) + [GridRow(ds, first, ys, m, monthMethod, yearMethod, n - 1)]
  }

  /** Month `m`: its GeoTIFF, or the exception raised while computing it. */
  function MonthOutcome(ds: NetCdf, first: Date, ys: seq<int>, m: int, monthMethod: string, yearMethod: string,
                        base: string): Result<Output, EsmError>
    requires Valid(first) && 1 <= m <= 12 && ys != []
  {
    match YearsError(ds, first, ys, |ys|, m)
    case Some(e) => Err(e)
    case None =>
      var g := MonthGrid(ds, first, ys, m, monthMethod, yearMethod);
      if SelectAll(g, NonNegative) == [] then Err(NoValidPixels) else Ok(Output(OutputName(base, ys, m), g))
  }

  /** The outcomes of the twelve months, in order. */
  function MonthOutcomes(ds: NetCdf, first: Date, ys: seq<int>, monthMethod: string, yearMethod: string,
                         base: string): (rs: seq<Result<Output, EsmError>>)
    requires Valid(first) && ys != []
    ensures |rs| == 12
  {
    seq(12, k requires 0 <= k < 12 => MonthOutcome(ds, first, ys, k + 1, monthMethod, yearMethod, base))
  }

  /** The month loop over outcomes `rs`: the GeoTIFFs written before the
      first exception, and that exception. */
  function Collect(rs: seq<Result<Output, EsmError>>): (seq<Output>, Option<EsmError>)
  {
    if rs == [] then ([], None)
    else
      var before := Collect(rs[..|rs| - 1]);
      var last := rs[|rs| - 1];
      if before.1.Some? then before
      else if last.Err? then (before.0, Some(last.error))
      else (before.0 + [last.value], None)
  }

  /** The month after the months written so far either adds its GeoTIFF or
      stops the run with its exception. */
  lemma CollectNext(rs: seq<Result<Output, EsmError>>, m: nat, outputs: seq<Output>)
    requires 1 <= m <= |rs| && Collect(rs[..m - 1]) == (outputs, None)
    ensures rs[m - 1].Ok? ==> Collect(rs[..m]) == (outputs + [rs[m - 1].value], None)
    ensures rs[m - 1].Err? ==> Collect(rs) == (outputs, Some(rs[m - 1].error))
  {
    assert rs[..m][..m - 1] == rs[..m - 1];
    if rs[m - 1].Err? {
      CollectStays(rs, m);
    }
  }

  lemma PrefixSnoc(s: seq<nat>, m: nat)
    requires 1 <= m <= |s|
    ensures s[..m] == s[..m - 1] + [s[m - 1]]
  {
  }

  /** Once a month fails, the later months change nothing. */
  lemma {:induction false} CollectStays(rs: seq<Result<Output, EsmError>>, k: nat)
    requires k <= |rs| && Collect(rs[..k]).1.Some?
    ensures Collect(rs) == Collect(rs[..k])
    decreases |rs| - k
  {
    if k < |rs| {
      assert rs[..|rs| - 1][..k] == rs[..k];
      CollectStays(rs[..|rs| - 1], k);
    } else {
      assert rs[..k] == rs;
    }
  }

  /** The rain days of each month over all the years, or zero when they
      are not counted. */
  function RainCounts(ds: NetCdf, first: Date, ys: seq<int>, countRain: bool): (c: seq<nat>)
    requires Valid(first)
    ensures |c| == 12
  {
    seq(12, k requires 0 <= k < 12 => if countRain then YearsRainyDays(ds, first, ys, |ys|, k + 1) else 0)
  }

  /** The rows of the rain table: each month and its rain days per year. */
  function RainTable(ds: NetCdf, first: Date, ys: seq<int>): seq<(int, real)>
    requires Valid(first) && ys != []
  {
    seq(12, k requires 0 <= k < 12 => (k + 1, YearsRainyDays(ds, first, ys, |ys|, k + 1) as real / |ys| as real))
  }

  /** `main`: the units check, the first and last days, the twelve months
      and the rain table, stopping at the first exception. */
  function Convert(ds: NetCdf, filepath: string, ys: seq<int>, monthMethod: string, yearMethod: string,
                   rainTable: bool): Conversion
  {
    var base := Basename(Splitext(filepath).0);
    if rainTable && ds.precipUnits != Some("mm d-1") then Conversion([], None, Some(UnitsAssertion))
    else match ReadFirstLastDays(ds)
      case Err(e) => Conversion([], None, Some(e))
      case Ok(days) =>
        if ys == [] then Conversion([], None, Some(NoYears))
        else
          var months := Collect(MonthOutcomes(ds, days.0, ys, monthMethod, yearMethod, base));
          if months.1.Some? then Conversion(months.0, None, months.1)
          else
            var table := if rainTable
              then Some((base + "-monthly-rain-events-" + YearsLabel(ys) + ".csv", RainTable(ds, days.0, ys)))
              else None;
            Conversion(months.0, table, None)
  }

  /** The pixels of an array, row by row. */
  function Snapshot(a: array2<real>): seq<seq<real>>
    reads a
  {
    seq(a.Length0, i requires 0 <= i < a.Length0 reads a =>
      seq(a.Length1, j requires 0 <= j < a.Length1 reads a => a[i, j]))
  }

  /** Lines 82-110 and 113-116 for month `m`: the year loop, the mean over
      the years when asked for, and the check that some pixel is not
      negative. */
  method MonthResult(ds: NetCdf, first: Date, ys: seq<int>, m: int, monthMethod: string, yearMethod: string,
                     countRain: bool, base: string) returns (r: Result<Output, EsmError>, events: nat)
    requires Valid(first) && 1 <= m <= 12 && ys != []
    ensures r == MonthOutcomes(ds, first, ys, monthMethod, yearMethod, base)[m - 1]
    ensures r.Ok? ==> events == RainCounts(ds, first, ys, countRain)[m - 1]
  {
    var total := new real[ds.ysize, ds.xsize]((i, j) => 0.0);
    var e;
    e, events := SumYears(ds, first, ys, m, monthMethod, countRain, total);
    assert MonthOutcomes(ds, first, ys, monthMethod, yearMethod, base)[m - 1]
      == MonthOutcome(ds, first, ys, m, monthMethod, yearMethod, base);
    if e.Some? {
      return Err(e.value), events;
    }
    var g := YearsGrid(ds, first, ys, m, monthMethod, yearMethod, total);
    if SelectAll(g, NonNegative) == [] {
      return Err(NoValidPixels), events;
    }
    r := Ok(Output(OutputName(base, ys, m), g));
  }

  /** Lines 104-110: the year totals, divided by the number of years when
      the years are averaged, as the grid of the month. */
  method YearsGrid(ds: NetCdf, first: Date, ys: seq<int>, m: int, monthMethod: string, yearMethod: string,
                   total: array2<real>) returns (g: seq<seq<real>>)
    requires Valid(first) && 1 <= m <= 12 && ys != []
    requires total.Length0 == ds.ysize && total.Length1 == ds.xsize
    requires forall i, j :: 0 <= i < total.Length0 && 0 <= j < total.Length1 ==>
      total[i, j] == YearsSum(ds, first, ys, |ys|, m, monthMethod, i, j)
    ensures g == MonthGrid(ds, first, ys, m, monthMethod, yearMethod)
  {
    var result := total;
    if yearMethod == "mean" {
      result := new real[ds.ysize, ds.xsize];
      forall i, j | 0 <= i < ds.ysize && 0 <= j < ds.xsize {
        result[i, j] := total[i, j] / (|ys| as real);
      }
    }
    g := Snapshot(result);
    var h := MonthGrid(ds, first, ys, m, monthMethod, yearMethod);
    forall i | 0 <= i < ds.ysize
      ensures g[i] == h[i]
    {
      assert forall j | 0 <= j < ds.xsize :: g[i][j] == result[i, j];
    }
  }

  /** The month loop of lines 81-127, with the rain counter of every
      month. */
  method AllMonths(ds: NetCdf, first: Date, ys: seq<int>, monthMethod: string, yearMethod: string,
                   countRain: bool, base: string)
      returns (outputs: seq<Output>, e: Option<EsmError>, events: seq<nat>)
    requires Valid(first) && ys != []
    ensures (outputs, e) == Collect(MonthOutcomes(ds, first, ys, monthMethod, yearMethod, base))
    ensures e.None? ==> events == RainCounts(ds, first, ys, countRain)
  {
    ghost var counts := RainCounts(ds, first, ys, countRain);
    ghost var rs := MonthOutcomes(ds, first, ys, monthMethod, yearMethod, base);
    outputs, events := [], [];
    var m := 1;
    while m <= 12
      invariant 1 <= m <= 13
      invariant Collect(rs[..m - 1]) == (outputs, None)
      invariant events == counts[..m - 1]
    {
      var r, ev := MonthResult(ds, first, ys, m, monthMethod, yearMethod, countRain, base);
      CollectNext(rs, m, outputs);
      if r.Err? {
        return outputs, Some(r.error), events;
      }
      outputs := outputs + [r.value];
      PrefixSnoc(counts, m);
      events := events + [ev];
      m := m + 1;
    }
    assert rs[..12] == rs;
    assert counts[..12] == counts;
    e := None;
  }

  /** `main` of lines 62-137, with the logging left out and the files
      written as values. */
  method ConvertMonthly(ds: NetCdf, filepath: string, ys: seq<int>, monthMethod: string, yearMethod: string,
                        rainTable: bool) returns (c: Conversion)
    ensures c == Convert(ds, filepath, ys, monthMethod, yearMethod, rainTable)
  {
    var base := Basename(Splitext(filepath).0);
    if rainTable && ds.precipUnits != Some("mm d-1") {
      return Conversion([], None, Some(UnitsAssertion));
    }
    var days := ReadFirstLastDays(ds);
    if days.Err? {
      return Conversion([], None, Some(days.error));
    }
    if ys == [] {
      return Conversion([], None, Some(NoYears));
    }
    var outputs, e, events := AllMonths(ds, days.value.0, ys, monthMethod, yearMethod, rainTable, base);
    if e.Some? {
      return Conversion(outputs, None, e);
    }
    var table := None;
    if rainTable {
      var rows := seq(12, k requires 0 <= k < 12 => (k + 1, events[k] as real / |ys| as real));
      assert rows == RainTable(ds, days.value.0, ys);
      table := Some((base + "-monthly-rain-events-" + YearsLabel(ys) + ".csv", rows));
    }
    c := Conversion(outputs, table, None);
  }

  // ---------------------------------------------------------------------
  // Properties of the conversion

  /** The month loop writes the months before the first failing one, in
      order, and stops there; without a failure it writes them all. */
  lemma {:induction false} CollectMeaning(rs: seq<Result<Output, EsmError>>)
    ensures var c := Collect(rs);
      && |c.0| <= |rs|
      && (forall k :: 0 <= k < |c.0| ==> rs[k] == Ok(c.0[k]))
      && (c.1.None? ==> |c.0| == |rs|)
      && (c.1.Some? ==> |c.0| < |rs| && rs[|c.0|] == Err(c.1.value))
    decreases |rs|
  {
    if rs != [] {
      var init := rs[..|rs| - 1];
      CollectMeaning(init);
      assert forall k :: 0 <= k < |init| ==> rs[k] == init[k];
    }
  }

  /** When every month that is written holds what `want` says for it,
      the month loop writes a prefix of `want`, and all of it when
      nothing is raised. */
  lemma CollectExpected(rs: seq<Result<Output, EsmError>>, want: seq<Output>)
    requires |rs| == |want|
    requires forall k :: 0 <= k < |rs| && rs[k].Ok? ==> rs[k].value == want[k]
    ensures var c := Collect(rs);
      |c.0| <= |want| && c.0 == want[..|c.0|] && (c.1.None? ==> c.0 == want)
  {
    CollectMeaning(rs);
    var c := Collect(rs);
    forall k | 0 <= k < |c.0|
      ensures c.0[k] == want[k]
    {
      assert rs[k] == Ok(c.0[k]);
    }
  }

  /** A month that is written goes under its own name with the computed
      pixels. */
  lemma MonthWritten(ds: NetCdf, first: Date, ys: seq<int>, m: int, monthMethod: string, yearMethod: string,
                     base: string, o: Output)
    requires Valid(first) && 1 <= m <= 12 && ys != []
    requires MonthOutcome(ds, first, ys, m, monthMethod, yearMethod, base) == Ok(o)
    ensures o == Output(OutputName(base, ys, m), MonthGrid(ds, first, ys, m, monthMethod, yearMethod))
  {
  }

  /** A run that raises nothing writes twelve GeoTIFFs, month `k + 1` at
      position `k` under its own name, and the rain table exactly when it
      is asked for. */
  lemma ConvertSucceeds(ds: NetCdf, filepath: string, ys: seq<int>, monthMethod: string, yearMethod: string,
                        rainTable: bool)
    requires Convert(ds, filepath, ys, monthMethod, yearMethod, rainTable).error.None?
    ensures ReadFirstLastDays(ds).Ok? && ys != []
    ensures var c := Convert(ds, filepath, ys, monthMethod, yearMethod, rainTable);
      var base := Basename(Splitext(filepath).0);
      && |c.outputs| == 12
      && (forall k :: 0 <= k < 12 ==>
            c.outputs[k] == Output(OutputName(base, ys, k + 1),
                                   MonthGrid(ds, ReadFirstLastDays(ds).value.0, ys, k + 1, monthMethod, yearMethod)))
      && (c.table.Some? <==> rainTable)
  {
    var first := ReadFirstLastDays(ds).value.0;
    MonthsWritten(ds, first, ys, monthMethod, yearMethod, Basename(Splitext(filepath).0));
  }

  /** The outcome at position `k` is month `k + 1`'s. */
  lemma MonthWrittenAt(ds: NetCdf, first: Date, ys: seq<int>, monthMethod: string, yearMethod: string, base: string,
                       k: nat)
    requires Valid(first) && ys != [] && k < 12
    requires MonthOutcomes(ds, first, ys, monthMethod, yearMethod, base)[k].Ok?
    ensures MonthOutcomes(ds, first, ys, monthMethod, yearMethod, base)[k].value ==
      Output(OutputName(base, ys, k + 1), MonthGrid(ds, first, ys, k + 1, monthMethod, yearMethod))
  {
    var o := MonthOutcomes(ds, first, ys, monthMethod, yearMethod, base)[k].value;
    MonthWritten(ds, first, ys, k + 1, monthMethod, yearMethod, base, o);
  }

  /** When no month raises, each month is written, in order. */
  lemma MonthsWritten(ds: NetCdf, first: Date, ys: seq<int>, monthMethod: string, yearMethod: string, base: string)
    requires Valid(first) && ys != []
    requires Collect(MonthOutcomes(ds, first, ys, monthMethod, yearMethod, base)).1.None?
    ensures var outputs := Collect(MonthOutcomes(ds, first, ys, monthMethod, yearMethod, base)).0;
      && |outputs| == 12
      && forall k :: 0 <= k < 12 ==>
           outputs[k] == Output(OutputName(base, ys, k + 1), MonthGrid(ds, first, ys, k + 1, monthMethod, yearMethod))
  {
    var rs := MonthOutcomes(ds, first, ys, monthMethod, yearMethod, base);
    var want := seq(12, k requires 0 <= k < 12 =>
      Output(OutputName(base, ys, k + 1), MonthGrid(ds, first, ys, k + 1, monthMethod, yearMethod)));
    forall k | 0 <= k < 12 && rs[k].Ok?
      ensures rs[k].value == want[k]
    {
      MonthWrittenAt(ds, first, ys, monthMethod, yearMethod, base, k);
    }
    CollectExpected(rs, want);
  }

  /** A run that raises writes only the months before the failing one and
      no table. */
  lemma ConvertFails(ds: NetCdf, filepath: string, ys: seq<int>, monthMethod: string, yearMethod: string,
                     rainTable: bool)
    requires Convert(ds, filepath, ys, monthMethod, yearMethod, rainTable).error.Some?
    ensures var c := Convert(ds, filepath, ys, monthMethod, yearMethod, rainTable);
      |c.outputs| < 12 && c.table.None?
  {
    var days := ReadFirstLastDays(ds);
    if days.Ok? && ys != [] && !(rainTable && ds.precipUnits != Some("mm d-1")) {
      CollectMeaning(MonthOutcomes(ds, days.value.0, ys, monthMethod, yearMethod, Basename(Splitext(filepath).0)));
    }
  }

  /** The twelve file names differ. */
  lemma OutputNamesDistinct(base: string, ys: seq<int>, a: nat, b: nat)
    requires ys != [] && a != b
    ensures OutputName(base, ys, a) != OutputName(base, ys, b)
  {
    if OutputName(base, ys, a) == OutputName(base, ys, b) {
      CancelAffixes(base + "-" + YearsLabel(ys) + "-", Pad2(a), Pad2(b), ".tif");
    }
  }

  /** Months 1 to 9 are written with a leading zero. */
  lemma OutputNameOfJanuary(base: string, ys: seq<int>)
    requires ys != []
    ensures OutputName(base, ys, 1) == base + "-" + YearsLabel(ys) + "-01.tif"
  {
  }

  /** The smallest and the largest of the years `Y0` to `Y1`. */
  lemma RangeBounds(y0: int, y1: int)
    requires y0 <= y1
    ensures Range(y0, y1 + 1, 1) != []
    ensures SeqMin(Range(y0, y1 + 1, 1)) == y0 && SeqMax(Range(y0, y1 + 1, 1)) == y1
  {
    var ys := Range(y0, y1 + 1, 1);
    RangeMember(y0, y1 + 1, 1, y0);
    RangeMember(y0, y1 + 1, 1, y1);
    RangeMember(y0, y1 + 1, 1, SeqMin(ys));
    RangeMember(y0, y1 + 1, 1, SeqMax(ys));
  }

  /** For the years `Y0` to `Y1` the label is "Y0-Y1". */
  lemma YearsLabelOfRange(y0: int, y1: int)
    requires y0 <= y1
    ensures Range(y0, y1 + 1, 1) != []
    ensures YearsLabel(Range(y0, y1 + 1, 1)) == IntStr(y0) + "-" + IntStr(y1)
  {
    RangeBounds(y0, y1);
  }

  lemma {:induction false} YearsRainyDaysBound(ds: NetCdf, first: Date, ys: seq<int>, k: nat, m: int)
    requires Valid(first) && 1 <= m <= 12 && k <= |ys|
    ensures YearsRainyDays(ds, first, ys, k, m) <= 31 * k
  {
    if k > 0 {
      YearsRainyDaysBound(ds, first, ys, k - 1, m);
    }
  }

  /** A row of the rain table holds its month and between 0 and 31 rain
      days per year. */
  lemma RainTableBounds(ds: NetCdf, first: Date, ys: seq<int>, k: int)
    requires Valid(first) && ys != [] && 0 <= k < 12
    ensures RainTable(ds, first, ys)[k].0 == k + 1
    ensures 0.0 <= RainTable(ds, first, ys)[k].1 <= 31.0
  {
    YearsRainyDaysBound(ds, first, ys, |ys|, k + 1);
    var x := YearsRainyDays(ds, first, ys, |ys|, k + 1) as real;
    DivBound(x, |ys| as real, 31.0);
  }

  lemma MulStep(n: nat, c: real)
    requires n > 0
    ensures (n as real) * c == ((n - 1) as real) * c + c
  {
  }

  /** One more term `c` in a sum of `n - 1` of them. */
  lemma AddOne(n: nat, c: real, before: real, after: real)
    requires n > 0 && before == ((n - 1) as real) * c && after == before + c
    ensures after == (n as real) * c
  {
    MulStep(n, c);
  }

  lemma MulDiv(n: nat, c: real)
    requires n > 0
    ensures ((n as real) * c) / (n as real) == c
  {
  }

  lemma DivBound(x: real, n: real, b: real)
    requires n > 0.0 && 0.0 <= x <= b * n
    ensures 0.0 <= x / n <= b
  {
    assert (x / n - b) * n == x - b * n;
  }

  lemma {:induction false} RunSumConstant(ds: NetCdf, k0: int, n: nat, i: int, j: int, c: real)
    requires forall k :: 0 <= k < |ds.bands| ==> DayValue(ds.bands[k], i, j) == c
    requires RunError(ds, k0, n).None?
    ensures RunSum(ds, k0, n, i, j) == (n as real) * c
  {
    if n > 0 {
      RunSumConstant(ds, k0, n - 1, i, j, c);
      assert BandAt(ds, k0 + n - 1) == ds.bands[k0 + n - 2];
      AddOne(n, c, RunSum(ds, k0, n - 1, i, j), RunSum(ds, k0, n, i, j));
    }
  }

  /** The mean of a readable month whose bands are all `c` at `(i, j)`. */
  lemma MonthMeanConstant(ds: NetCdf, first: Date, y: int, m: int, i: int, j: int, c: real)
    requires Valid(first) && 1 <= m <= 12
    requires forall b :: 0 <= b < |ds.bands| ==> DayValue(ds.bands[b], i, j) == c
    requires MonthError(ds, first, y, m).None?
    ensures MonthValue(ds, first, y, m, "mean", i, j) == c
  {
    var n := MonthLength(y, m);
    RunSumConstant(ds, MonthStart(first, y, m), n, i, j, c);
    MulDiv(n, c);
  }

  /** The sum of a sequence of reals. */
  function Sum(xs: seq<real>): real
  {
    if xs == [] then 0.0 else Sum(xs[..|xs| - 1]) + xs[|xs| - 1]
  }

  lemma {:induction false} SumConstant(xs: seq<real>, c: real)
    requires forall t :: 0 <= t < |xs| ==> xs[t] == c
    ensures Sum(xs) == (|xs| as real) * c
  {
    if xs != [] {
      var init := xs[..|xs| - 1];
      assert forall t :: 0 <= t < |init| ==> init[t] == xs[t];
      SumConstant(init, c);
      MulStep(|xs|, c);
    }
  }

  /** The month's value in each of the years. */
  function MonthValues(ds: NetCdf, first: Date, ys: seq<int>, m: int, monthMethod: string, i: int, j: int)
      : (vs: seq<real>)
    requires Valid(first) && 1 <= m <= 12
    ensures |vs| == |ys|
  {
    seq(|ys|, t requires 0 <= t < |ys| => MonthValue(ds, first, ys[t], m, monthMethod, i, j))
  }

  /** The year loop adds up the month's values of the years in order. */
  lemma {:induction false} YearsSumIsSum(ds: NetCdf, first: Date, ys: seq<int>, k: nat, m: int, monthMethod: string,
                                         i: int, j: int)
    requires Valid(first) && 1 <= m <= 12 && k <= |ys|
    ensures YearsSum(ds, first, ys, k, m, monthMethod, i, j) == Sum(MonthValues(ds, first, ys, m, monthMethod, i, j)[..k])
  {
    if k > 0 {
      YearsSumIsSum(ds, first, ys, k - 1, m, monthMethod, i, j);
      var vs := MonthValues(ds, first, ys, m, monthMethod, i, j);
      assert vs[..k][..k - 1] == vs[..k - 1];
    }
  }

  /** The months of the first `k` years can all be read exactly when none
      of them raises. */
  lemma {:induction false} YearsErrorNone(ds: NetCdf, first: Date, ys: seq<int>, k: nat, m: int)
    requires Valid(first) && 1 <= m <= 12 && k <= |ys|
    ensures YearsError(ds, first, ys, k, m).None? <==> forall t :: 0 <= t < k ==> MonthError(ds, first, ys[t], m).None?
  {
    if k > 0 {
      YearsErrorNone(ds, first, ys, k - 1, m);
    }
  }

  /** The mean of equal values is that value. */
  lemma MeanOfEqual(xs: seq<real>, c: real)
    requires xs != [] && forall t :: 0 <= t < |xs| ==> xs[t] == c
    ensures Sum(xs) / (|xs| as real) == c
  {
    SumConstant(xs, c);
    MulDiv(|xs|, c);
  }

  /** "mean" over the years is the mean of the month's values. */
  lemma PixelIsMean(ds: NetCdf, first: Date, ys: seq<int>, m: int, monthMethod: string, i: int, j: int)
    requires Valid(first) && 1 <= m <= 12 && ys != []
    ensures MonthPixel(ds, first, ys, m, monthMethod, "mean", i, j) ==
      Sum(MonthValues(ds, first, ys, m, monthMethod, i, j)) / (|ys| as real)
  {
    var vs := MonthValues(ds, first, ys, m, monthMethod, i, j);
    YearsSumIsSum(ds, first, ys, |ys|, m, monthMethod, i, j);
    assert vs[..|ys|] == vs;
  }

  /** "mean:mean" of a pixel that is `c` in every band gives `c` back,
      whenever the months can be read. */
  lemma MeanOfConstant(ds: NetCdf, first: Date, ys: seq<int>, m: int, i: int, j: int, c: real)
    requires Valid(first) && 1 <= m <= 12 && ys != []
    requires forall b :: 0 <= b < |ds.bands| ==> DayValue(ds.bands[b], i, j) == c
    requires YearsError(ds, first, ys, |ys|, m).None?
    ensures MonthPixel(ds, first, ys, m, "mean", "mean", i, j) == c
  {
    YearsErrorNone(ds, first, ys, |ys|, m);
    var vs := MonthValues(ds, first, ys, m, "mean", i, j);
    forall t | 0 <= t < |ys|
      ensures vs[t] == c
    {
      MonthMeanConstant(ds, first, ys[t], m, i, j, c);
    }
    MeanOfEqual(vs, c);
    PixelIsMean(ds, first, ys, m, "mean", i, j);
  }

  // ---------------------------------------------------------------------
  // The command line

  /** Why the command line is refused before any file is opened. */
  datatype CliError =
    | MissingArgument      // `sys.argv[2]` or `sys.argv[3]` raises IndexError
    | YearNotInteger       // `int(year)` raises ValueError
    | MethodsNotTwo        // unpacking `sys.argv[3].split(":")` raises ValueError
    | UnknownMethod(name: string)
    | TooFewYears          // `years[1]` raises IndexError

  /** The arguments `main` is called with. */
  datatype Invocation = Invocation(filepath: string, years: seq<int>, monthMethod: string, yearMethod: string,
                                   rainTable: bool)

  predicate KnownMethod(name: string)
  {
    name == "sum" || name == "mean"
  }

  /** Lines 142-155: the years "Y0:Y1" become the years Y0 to Y1, the
      methods "month:year" must each be "sum" or "mean" (the month method
      is checked first), and the rain table is asked for by any non-empty
      fourth argument. */
  function ParseArgs(argv: seq<string>): Result<Invocation, CliError>
  {
    if |argv| < 3 then Err(MissingArgument)
    else match ParseInts(Split(argv[2], ':'))
      case None => Err(YearNotInteger)
      case Some(years) =>
        if |argv| < 4 then Err(MissingArgument)
        else
          var methods := Split(argv[3], ':');
          if |methods| != 2 then Err(MethodsNotTwo)
          else
            var rain := |argv| > 4 && argv[4] != "";
            if !KnownMethod(methods[0]) then Err(UnknownMethod(methods[0]))
            else if !KnownMethod(methods[1]) then Err(UnknownMethod(methods[1]))
            else if |years| < 2 then Err(TooFewYears)
            else Ok(Invocation(argv[1], Range(years[0], years[1] + 1, 1), methods[0], methods[1], rain))
  }

  /** The script run on `argv` against the dataset the file names. */
  function Script(argv: seq<string>, ds: NetCdf): Result<Conversion, CliError>
  {
    match ParseArgs(argv)
    case Err(e) => Err(e)
    case Ok(inv) => Ok(Convert(ds, inv.filepath, inv.years, inv.monthMethod, inv.yearMethod, inv.rainTable))
  }

  /** A command line "file Y0:Y1 M:Y [table]" with known methods runs
      `main` on the years Y0 to Y1, with the rain table exactly when the
      fourth argument is not empty. */
  lemma ScriptRuns(ds: NetCdf, file: string, y0: int, y1: int, monthMethod: string, yearMethod: string,
                   rain: string)
    requires KnownMethod(monthMethod) && KnownMethod(yearMethod)
    ensures Script(["convert", file, IntStr(y0) + ":" + IntStr(y1), monthMethod + ":" + yearMethod, rain], ds)
      == Ok(Convert(ds, file, Range(y0, y1 + 1, 1), monthMethod, yearMethod, rain != ""))
  {
    ParseArgsOfInvocation(file, y0, y1, monthMethod, yearMethod, rain);
  }

  /** An accepted command line names known methods and the years from its
      first year to its second, both included. */
  lemma ParseArgsAccepted(argv: seq<string>)
    requires ParseArgs(argv).Ok?
    ensures var inv := ParseArgs(argv).value;
      var years := ParseInts(Split(argv[2], ':')).value;
      && |argv| >= 4 && inv.filepath == argv[1]
      && KnownMethod(inv.monthMethod) && KnownMethod(inv.yearMethod)
      && Split(argv[3], ':') == [inv.monthMethod, inv.yearMethod]
      && (inv.rainTable <==> |argv| > 4 && argv[4] != "")
      && forall y :: y in inv.years <==> years[0] <= y <= years[1]
  {
    var years := ParseInts(Split(argv[2], ':')).value;
    forall y
      ensures y in ParseArgs(argv).value.years <==> years[0] <= y <= years[1]
    {
      RangeMember(years[0], years[1] + 1, 1, y);
    }
  }

  /** `bool(sys.argv[4])` is true for every non-empty string, so the
      argument "False" asks for the rain table too. */
  lemma FalseAsksForTable(file: string, y0: int, y1: int, monthMethod: string, yearMethod: string)
    requires KnownMethod(monthMethod) && KnownMethod(yearMethod)
    ensures var r := ParseArgs(["convert", file, IntStr(y0) + ":" + IntStr(y1), monthMethod + ":" + yearMethod, "False"]);
      r.Ok? && r.value.rainTable
  {
    ParseArgsOfInvocation(file, y0, y1, monthMethod, yearMethod, "False");
  }

  /** The years argument written "Y0:Y1" reads back as the two years. */
  lemma YearsArgument(y0: int, y1: int)
    ensures ParseInts(Split(IntStr(y0) + ":" + IntStr(y1), ':')) == Some([y0, y1])
  {
    IntStrNoColon(y0);
    IntStrNoColon(y1);
    SplitAfterPart(IntStr(y0), IntStr(y1), ':');
    SplitNoSep(IntStr(y1), ':');
    ParseIntsOfStrs([IntStr(y0), IntStr(y1)], [y0, y1]);
  }

  lemma IntStrNoColon(y: int)
    ensures ':' !in IntStr(y)
  {
  }

  /** The methods argument "M:Y" splits into the two methods. */
  lemma MethodsArgument(monthMethod: string, yearMethod: string)
    requires KnownMethod(monthMethod) && KnownMethod(yearMethod)
    ensures Split(monthMethod + ":" + yearMethod, ':') == [monthMethod, yearMethod]
  {
    SplitAfterPart(monthMethod, yearMethod, ':');
    SplitNoSep(yearMethod, ':');
  }

  /** Every invocation of `main` with a range of years and known methods
      is reached by the command line that writes them out. */
  lemma ParseArgsOfInvocation(file: string, y0: int, y1: int, monthMethod: string, yearMethod: string,
                              rain: string)
    requires KnownMethod(monthMethod) && KnownMethod(yearMethod)
    ensures ParseArgs(["convert", file, IntStr(y0) + ":" + IntStr(y1), monthMethod + ":" + yearMethod, rain])
      == Ok(Invocation(file, Range(y0, y1 + 1, 1), monthMethod, yearMethod, rain != ""))
  {
    YearsArgument(y0, y1);
    MethodsArgument(monthMethod, yearMethod);
  }
}
