/** Month and season time ranges, and the naming of UTM zones, as the
    Sentinel-2 geomedian job computes them.  A time range is kept as the
    pair of months it spans: it starts at 00:00 on day 1 of its first
    month and ends one microsecond before 00:00 on day 1 of its stop
    month. */
module S2gm {
  import opened Base
  import opened Text

  // ---------------------------------------------------------------------
  // Months

  /** `datetime.MINYEAR` and `datetime.MAXYEAR`. */
  const MinYear := 1
  const MaxYear := 9999

  datatype YearMonth = YearMonth(year: int, month: int)

  /** Months since January of year 0. */
  function MonthIndex(ym: YearMonth): int {
    12 * ym.year + ym.month - 1
  }

  /** The range of a C `int`, which `datetime` converts its arguments to. */
  predicate IsCInt(x: int) {
    -0x8000_0000 <= x < 0x8000_0000
  }

  /** `datetime.datetime(year=year, month=month, day=1)`: both arguments
      are converted to C ints first, then the year is checked before the
      month. */
  function FirstOfMonth(year: int, month: int): (r: Result<YearMonth>)
    ensures r.Ok? <==> MinYear <= year <= MaxYear && 1 <= month <= 12
    ensures r.Ok? ==> r.value == YearMonth(year, month)
    ensures r.Err? ==> (r.error == OverflowError <==> !IsCInt(year) || !IsCInt(month))
    ensures r.Err? && r.error != OverflowError ==> r.error.ValueError?
  {
    if !IsCInt(year) || !IsCInt(month) then Err(OverflowError)
    else if year < MinYear || year > MaxYear then Err(ValueError("year " + IntToDecimal(year) + " is out of range"))
    else if month < 1 || month > 12 then Err(ValueError("month must be in 1..12"))
    else Ok(YearMonth(year, month))
  }

  /** A time range from day 1 of `start` to 1 µs before day 1 of `stop`. */
  datatype Span = Span(start: YearMonth, stop: YearMonth)

  /** `month_range(year, month, n)`.  A negative month is retried as month
      `13 + month` of the year before; the stop month is `month + n`,
      moved into the next year once when it passes 12.  Invalid dates are
      a ValueError; a year or month beyond a C int, and stepping back from
      the first representable instant, an OverflowError. */
  function MonthRange(year: int, month: int, n: int): (r: Result<Span>)
    ensures r.Err? ==> r.error.ValueError? || r.error == OverflowError
    decreases if month < 0 then -month else 0
  {
    if month < 0 then MonthRange(year - 1, 12 + month + 1, n)
    else
      var (y2, m2) := if month + n > 12 then (year + 1, month + n - 12) else (year, month + n);
      match FirstOfMonth(year, month)
      case Err(e) => Err(e)
      case Ok(start) =>
        match FirstOfMonth(y2, m2)
        case Err(e) => Err(e)
        case Ok(stop) =>
          if stop == YearMonth(MinYear, 1) then Err(OverflowError) else Ok(Span(start, stop))
  }

  /** Months -1 to -12 count back from the end of the year before:
      `month_range(2020, -1, n)` is `month_range(2019, 12, n)`. */
  lemma MonthRangeNegative(year: int, month: int, n: int)
    requires -12 <= month <= -1
    ensures MonthRange(year, month, n) == MonthRange(year - 1, 13 + month, n)
    ensures 1 <= 13 + month <= 12
  {
  }

  /** For a month of 0 or more: the range is defined just when the start is
      a valid date, the stop month lies within the year after at the
      latest, and the stop is a valid date after January of year 1.  It
      then starts on day 1 of (year, month) and covers exactly `n`
      months. */
  lemma MonthRangeCovers(year: int, month: int, n: int)
    requires month >= 0
    ensures var r := MonthRange(year, month, n);
      r.Ok? <==> && MinYear <= year <= MaxYear && 1 <= month <= 12 && 1 <= month + n <= 24
                 && 12 * MinYear < MonthIndex(YearMonth(year, month)) + n <= 12 * MaxYear + 11
    ensures var r := MonthRange(year, month, n);
      r.Ok? ==> r.value.start == YearMonth(year, month) && 1 <= r.value.stop.month <= 12
                && MonthIndex(r.value.stop) == MonthIndex(r.value.start) + n
  {
  }

  /** Whatever the month, a range that is defined starts on day 1 of a
      valid month and covers exactly `n` months; a negative month never
      starts in the year given. */
  lemma {:induction false} MonthRangeSpan(year: int, month: int, n: int)
    ensures var r := MonthRange(year, month, n);
      r.Ok? ==> && MinYear <= r.value.start.year <= MaxYear && 1 <= r.value.start.month <= 12
                && MonthIndex(r.value.stop) == MonthIndex(r.value.start) + n
                && (month < 0 ==> r.value.start.year < year)
    decreases if month < 0 then -month else 0
  {
    if month < 0 {
      MonthRangeSpan(year - 1, 12 + month + 1, n);
    } else {
      MonthRangeCovers(year, month, n);
    }
  }

  // ---------------------------------------------------------------------
  // Seasons

  /** The `seasons` table looked up with `season.lower()`.  Only ASCII
      letters change case here: no other character lower-cases to a letter
      of the four names. */
  function SeasonStart(season: string): (m: Option<int>)
    ensures m.Some? <==> LowerAscii(season) in {"djf", "mam", "jja", "son"}
  {
    var s := LowerAscii(season);
    if s == "djf" then Some(-1)
    else if s == "mam" then Some(2)
    else if s == "jja" then Some(6)
    else if s == "son" then Some(9)
    else None
  }

  function NoSuchSeason(season: string): Error {
    ValueError("No such season " + season + ", valid seasons are: djf,mam,jja,son")
  }

  /** `season_range(year, season)`: three months from the season's start
      month, or a ValueError naming the season. */
  function SeasonRange(year: int, season: string): (r: Result<Span>)
    ensures SeasonStart(season).None? ==> r == Err(NoSuchSeason(season))
    ensures SeasonStart(season).Some? ==> r == MonthRange(year, SeasonStart(season).value, 3)
  {
    match SeasonStart(season)
    case None => Err(NoSuchSeason(season))
    case Some(m) => MonthRange(year, m, 3)
  }

  /** A season whose lower-cased name is none of the four is the
      ValueError naming it, whatever the year. */
  lemma UnknownSeasonRejected(year: int, season: string)
    requires LowerAscii(season) !in {"djf", "mam", "jja", "son"}
    ensures SeasonRange(year, season) == Err(NoSuchSeason(season))
  {
  }

  /** Season names are matched without regard to case. */
  lemma SeasonCaseInsensitive(season: string)
    ensures SeasonStart(season) == SeasonStart(LowerAscii(season))
  {
    LowerAsciiIdempotent(season);
  }

  /** DJF of year X starts in December of X-1 and ends with February of X. */
  lemma DjfSpansTheTurnOfYear(year: int)
    requires MinYear < year <= MaxYear
    ensures SeasonRange(year, "djf") == Ok(Span(YearMonth(year - 1, 12), YearMonth(year, 3)))
  {
    assert LowerAscii("djf") == "djf";
  }

  /** A season that is defined covers three months, starting in the month
      its table entry gives (-1 being December of the year before). */
  lemma SeasonSpan(year: int, season: string)
    requires SeasonRange(year, season).Ok?
    ensures SeasonStart(season).Some?
    ensures var sp := SeasonRange(year, season).value;
      var m := SeasonStart(season).value;
      && sp.start == (if m < 0 then YearMonth(year - 1, 13 + m) else YearMonth(year, m))
      && MonthIndex(sp.stop) == MonthIndex(sp.start) + 3
  {
    var m := SeasonStart(season).value;
    if m < 0 {
      MonthRangeCovers(year - 1, 13 + m, 3);
    } else {
      MonthRangeCovers(year, m, 3);
    }
  }

  /** The initials of January to December, in lower case. */
  const MonthInitials := "jfmamjjasond"

  /** `name` spells the initials of the three months from calendar month
      `first` on. */
  predicate SpellsMonths(name: string, first: int)
    requires 1 <= first <= 12
  {
    name == [MonthInitials[first - 1], MonthInitials[first % 12], MonthInitials[(first + 1) % 12]]
  }

  /** The calendar month a season entry starts in. */
  function CalendarMonth(m: int): int {
    if m < 0 then 13 + m else m
  }

  /** The table as written: "mam" starts in February, so its three months
      are February, March and April, whose initials are "fma". */
  lemma MamStartsInFebruary(year: int)
    requires MinYear <= year <= MaxYear
    ensures SeasonStart("mam") == Some(2)
    ensures SeasonRange(year, "mam") == Ok(Span(YearMonth(year, 2), YearMonth(year, 5)))
    ensures !SpellsMonths("mam", CalendarMonth(2))
  {
    assert LowerAscii("mam") == "mam";
    assert MonthInitials[1] == 'f';
  }

  /** The seasons table with MAM starting in March, as the name says. */
  function SeasonStartIntended(season: string): (m: Option<int>)
    ensures m.Some? <==> SeasonStart(season).Some?
    ensures LowerAscii(season) != "mam" ==> m == SeasonStart(season)
  {
    if LowerAscii(season) == "mam" then Some(3) else SeasonStart(season)
  }

  /** `season_range` with the intended table. */
  function SeasonRangeIntended(year: int, season: string): (r: Result<Span>)
    ensures SeasonStartIntended(season).None? ==> r == Err(NoSuchSeason(season))
  {
    match SeasonStartIntended(season)
    case None => Err(NoSuchSeason(season))
    case Some(m) => MonthRange(year, m, 3)
  }

  /** With the intended table every season name spells the initials of
      its three months; the written table differs from it only for MAM. */
  lemma SeasonNamesItsMonths(season: string)
    requires SeasonStartIntended(season).Some?
    ensures 1 <= CalendarMonth(SeasonStartIntended(season).value) <= 12
    ensures SpellsMonths(LowerAscii(season), CalendarMonth(SeasonStartIntended(season).value))
    ensures LowerAscii(season) != "mam" <==> SeasonStartIntended(season) == SeasonStart(season)
  {
    var s := LowerAscii(season);
    var m := CalendarMonth(SeasonStartIntended(season).value);
    if s == "djf" {
      assert m == 12 && SpellsMonths("djf", 12);
    } else if s == "mam" {
      assert m == 3 && SpellsMonths("mam", 3);
    } else if s == "jja" {
      assert m == 6 && SpellsMonths("jja", 6);
    } else {
      assert s == "son" && m == 9 && SpellsMonths("son", 9);
    }
  }

  // ---------------------------------------------------------------------
  // UTM zones

  /** The zone number and hemisphere letter of a UTM EPSG code. */
  function UtmZone(epsg: int): (r: Result<(int, char)>)
    ensures r.Ok? <==> 32601 <= epsg <= 32660 || 32701 <= epsg <= 32760
    ensures r.Ok? ==> && 1 <= r.value.0 <= 60 && (r.value.1 == 'N' || r.value.1 == 'S')
                      && epsg == (if r.value.1 == 'N' then 32600 else 32700) + r.value.0
    ensures r.Err? ==> r.error.ValueError?
  {
    if 32601 <= epsg <= 32660 then Ok((epsg - 32600, 'N'))
    else if 32701 <= epsg <= 32760 then Ok((epsg - 32700, 'S'))
    else Err(ValueError("Not a utm epsg: " + IntToDecimal(epsg)
                        + ", valid ranges [32601, 32660] and [32701, 32760]"))
  }

  /** `utm_key(epsg, tidx)`: the zone padded to two digits and the
      hemisphere letter, then with a tile index `_xx_yy`, each padded to
      two digits.  A tile index of fewer than two entries is an
      IndexError. */
  function UtmKey(epsg: int, tidx: Option<seq<int>>): (r: Result<string>)
  {
    match UtmZone(epsg)
    case Err(e) => Err(e)
    case Ok((zone, code)) =>
      var key := Pad2(zone) + [code];
      match tidx
      case None => Ok(key)
      case Some(t) => if |t| < 2 then Err(IndexError) else Ok(key + "_" + Pad2(t[0]) + "_" + Pad2(t[1]))
  }

  /** `utm_key((epsg, x, y, ...))`: a tuple supplies the code and the tile
      index; an empty tuple is an IndexError. */
  function UtmKeyOfTuple(t: seq<int>): (r: Result<string>)
    ensures |t| > 0 ==> r == UtmKey(t[0], Some(t[1..]))
  {
    if |t| == 0 then Err(IndexError) else UtmKey(t[0], Some(t[1..]))
  }

  /** `utm_key` is defined just for the codes 32601-32660 (north) and
      32701-32760 (south), and gives three characters: two zone digits
      and the hemisphere letter. */
  lemma UtmKeyShape(epsg: int)
    ensures UtmKey(epsg, None).Ok? <==> 32601 <= epsg <= 32660 || 32701 <= epsg <= 32760
    ensures var r := UtmKey(epsg, None);
      r.Ok? ==> && |r.value| == 3 && AllDigits(r.value[..2])
                && r.value[2] == (if epsg <= 32660 then 'N' else 'S')
                && DecimalValue(r.value[..2]) == epsg - (if epsg <= 32660 then 32600 else 32700)
  {
    var r := UtmKey(epsg, None);
    if r.Ok? {
      var zone := UtmZone(epsg).value.0;
      assert r.value[..2] == Pad2(zone);
    }
  }

  /** With a tile index, the key is the plain key followed by `_xx_yy`. */
  lemma UtmKeyWithTile(epsg: int, t: seq<int>)
    requires |t| >= 2
    ensures UtmKey(epsg, Some(t)).Ok? <==> UtmKey(epsg, None).Ok?
    ensures UtmKey(epsg, Some(t)).Ok? ==>
              UtmKey(epsg, Some(t)).value == UtmKey(epsg, None).value + "_" + Pad2(t[0]) + "_" + Pad2(t[1])
  {
  }

  /** `utm_key((epsg, x, y, ...))` is the key of `epsg` followed by `_xx_yy`
      from `x` and `y`; a tuple of fewer than three numbers is an error. */
  lemma UtmKeyOfTupleValue(t: seq<int>)
    ensures |t| < 3 ==> UtmKeyOfTuple(t).Err?
    ensures |t| >= 3 ==> (UtmKeyOfTuple(t).Ok? <==> UtmKey(t[0], None).Ok?)
    ensures |t| >= 3 && UtmKeyOfTuple(t).Ok? ==>
              UtmKeyOfTuple(t).value == UtmKey(t[0], None).value + "_" + Pad2(t[1]) + "_" + Pad2(t[2])
  {
    if |t| >= 3 {
      UtmKeyWithTile(t[0], t[1..]);
    }
  }

  /** The suffixes that upper-case to 'N'. */
  predicate IsNorth(c: char) { c == 'N' || c == 'n' }

  /** The suffixes that upper-case to 'S': besides 's', the long s 'ſ'. */
  predicate IsSouth(c: char) { c == 'S' || c == 's' || c == 'ſ' }

  /** `dict(S=32700, N=32600).get(c.upper())`: besides 's' and 'n', the
      long s 'ſ' upper-cases to 'S'. */
  function SuffixOffset(c: char): (r: Option<int>)
    ensures r.Some? <==> IsNorth(c) || IsSouth(c)
    ensures r.Some? ==> r.value == if IsNorth(c) then 32600 else 32700
  {
    if c == 'S' || c == 's' || c == 'ſ' then Some(32700)
    else if c == 'N' || c == 'n' then Some(32600)
    else None
  }

  /** `int()` of a non-empty run of ASCII digits is their decimal value,
      unless there are more of them than `int()` converts. */
  lemma ParseIntOfDigits(s: string)
    requires |s| > 0 && AllDigits(s)
    ensures ParseInt(s) == if |s| <= IntMaxStrDigits then Some(DecimalValue(s) as int) else None
  {
    StripDigits(s);
    ParseStrippedDigits(s);
  }

  function NotAZone(zone: string): Error {
    ValueError("Not a valid zone: \"" + zone + "\", expect <int: 1-60><str:S|N>")
  }

  /** `utm_zone_to_epsg(zone)`: the text before the last character is read
      with `int()` and must lie in 0..60; the last character picks the
      hemisphere.  A number `int()` cannot read leaves `None`, which the
      range comparison rejects with a TypeError. */
  function UtmZoneToEpsg(zone: string): (r: Result<int>)
  {
    if |zone| < 2 then Err(NotAZone(zone))
    else ZoneCode(zone, SuffixOffset(zone[|zone| - 1]), ParseInt(zone[..|zone| - 1]))
  }

  /** The checks after the length check, given the hemisphere offset the
      suffix selects and what `int()` makes of the number. */
  function ZoneCode(zone: string, suffix: Option<int>, number: Option<int>): Result<int> {
    match suffix
    case None => Err(NotAZone(zone))
    case Some(offset) =>
      match number
      case None => Err(TypeError)
      case Some(i) => if i < 0 || i > 60 then Err(NotAZone(zone)) else Ok(offset + i)
  }

  /** `utm_zone_to_epsg` accepts exactly a suffix in S/N (either case) after
      an integer in 0..60, and gives the hemisphere's base plus that
      integer; each rejection is the ValueError naming the zone, except an
      unreadable number, which is a TypeError. */
  lemma UtmZoneToEpsgAccepts(zone: string)
    ensures var r := UtmZoneToEpsg(zone);
      r.Ok? <==> && |zone| >= 2 && (IsNorth(zone[|zone| - 1]) || IsSouth(zone[|zone| - 1]))
                 && ParseInt(zone[..|zone| - 1]).Some? && 0 <= ParseInt(zone[..|zone| - 1]).value <= 60
    ensures var r := UtmZoneToEpsg(zone);
      r.Ok? ==> r.value == (if IsNorth(zone[|zone| - 1]) then 32600 else 32700) + ParseInt(zone[..|zone| - 1]).value
    ensures var r := UtmZoneToEpsg(zone);
      r.Err? ==> (r.error == TypeError <==> |zone| >= 2 && (IsNorth(zone[|zone| - 1]) || IsSouth(zone[|zone| - 1]))
                                            && ParseInt(zone[..|zone| - 1]).None?)
    ensures var r := UtmZoneToEpsg(zone);
      r.Err? && r.error != TypeError ==> r.error == NotAZone(zone)
  {
  }

  /** A zone whose suffix gives `offset` and whose number reads as `i` in
      0..60 gives `offset + i`. */
  lemma UtmZoneOfParts(zone: string, offset: int, i: int)
    requires |zone| >= 2 && SuffixOffset(zone[|zone| - 1]) == Some(offset)
    requires ParseInt(zone[..|zone| - 1]) == Some(i) && 0 <= i <= 60
    ensures UtmZoneToEpsg(zone) == Ok(offset + i)
  {
  }

  /** A two-digit zone number followed by a hemisphere letter names the
      code `epsg` when the number is `epsg` less the hemisphere's base. */
  lemma UtmZoneOfKey(key: string, offset: int, epsg: int)
    requires |key| == 3 && AllDigits(key[..2]) && SuffixOffset(key[2]) == Some(offset)
    requires DecimalValue(key[..2]) == epsg - offset <= 60
    ensures UtmZoneToEpsg(key) == Ok(epsg)
  {
    assert key[..|key| - 1] == key[..2];
    ParseIntOfDigits(key[..2]);
    UtmZoneOfParts(key, offset, epsg - offset);
  }

  /** The two examples of the function's documentation. */
  lemma UtmZoneExamples()
    ensures UtmZoneToEpsg("56S") == Ok(32756)
    ensures UtmZoneToEpsg("55N") == Ok(32655)
  {
    assert DecimalValue("56") == 56 by {
      assert "56"[..1] == "5";
    }
    assert DecimalValue("55") == 55 by {
      assert "55"[..1] == "5";
    }
    assert "56S"[..2] == "56" && "55N"[..2] == "55";
    UtmZoneOfKey("56S", 32700, 32756);
    UtmZoneOfKey("55N", 32600, 32655);
  }

  lemma SameNumberSameCode(a: string, b: string)
    requires |a| >= 2 && |b| >= 2 && a[..|a| - 1] == b[..|b| - 1]
    requires SuffixOffset(a[|a| - 1]) == SuffixOffset(b[|b| - 1])
    ensures UtmZoneToEpsg(a).Ok? <==> UtmZoneToEpsg(b).Ok?
    ensures UtmZoneToEpsg(a).Ok? ==> UtmZoneToEpsg(a) == UtmZoneToEpsg(b)
  {
    UtmZoneToEpsgAccepts(a);
    UtmZoneToEpsgAccepts(b);
  }

  /** The hemisphere letter may be given in either case. */
  lemma UtmSuffixCaseInsensitive(number: string, lower: char, upper: char)
    requires (lower, upper) == ('s', 'S') || (lower, upper) == ('n', 'N')
    ensures UtmZoneToEpsg(number + [lower]).Ok? <==> UtmZoneToEpsg(number + [upper]).Ok?
    ensures UtmZoneToEpsg(number + [lower]).Ok? ==> UtmZoneToEpsg(number + [lower]) == UtmZoneToEpsg(number + [upper])
  {
    if number != [] {
      var a, b := number + [lower], number + [upper];
      assert a[..|a| - 1] == number && a[|a| - 1] == lower;
      assert b[..|b| - 1] == number && b[|b| - 1] == upper;
      SameNumberSameCode(a, b);
    }
  }

  /** Round trip: every UTM EPSG code named by `utm_key` is given back by
      `utm_zone_to_epsg`. */
  lemma UtmRoundTrip(epsg: int)
    requires 32601 <= epsg <= 32660 || 32701 <= epsg <= 32760
    ensures UtmKey(epsg, None).Ok?
    ensures UtmZoneToEpsg(UtmKey(epsg, None).value) == Ok(epsg)
  {
    UtmKeyShape(epsg);
    UtmZoneOfKey(UtmKey(epsg, None).value, if epsg <= 32660 then 32600 else 32700, epsg);
  }

  /** As written, zone 0 is accepted: "0N" gives 32600, a code that
      `utm_key` rejects, so the round trip fails from this side. */
  lemma ZoneZeroAccepted()
    ensures UtmZoneToEpsg("0N") == Ok(32600)
    ensures UtmKey(32600, None).Err?
  {
    assert "0N"[..1] == "0";
    ParseIntOfDigits("0");
    UtmZoneOfParts("0N", 32600, 0);
  }

  /** `utm_zone_to_epsg` with the zone range its error message states,
      1-60. */
  function UtmZoneToEpsgIntended(zone: string): (r: Result<int>)
    ensures r.Ok? ==> UtmZoneToEpsg(zone) == r
  {
    if |zone| < 2 then Err(NotAZone(zone))
    else IntendedZoneCode(zone, SuffixOffset(zone[|zone| - 1]), ParseInt(zone[..|zone| - 1]))
  }

  function IntendedZoneCode(zone: string, suffix: Option<int>, number: Option<int>): (r: Result<int>)
    ensures r.Ok? ==> ZoneCode(zone, suffix, number) == r
  {
    match suffix
    case None => Err(NotAZone(zone))
    case Some(offset) =>
      match number
      case None => Err(TypeError)
      case Some(i) => if i < 1 || i > 60 then Err(NotAZone(zone)) else Ok(offset + i)
  }

  /** The intended function on a zone whose suffix gives `offset` and
      whose number reads as `i` in 1..60. */
  lemma IntendedZoneOfParts(zone: string, offset: int, i: int)
    requires |zone| >= 2 && SuffixOffset(zone[|zone| - 1]) == Some(offset)
    requires ParseInt(zone[..|zone| - 1]) == Some(i) && 1 <= i <= 60
    ensures UtmZoneToEpsgIntended(zone) == Ok(offset + i)
  {
  }

  /** The intended function on a two-digit zone number and a hemisphere
      letter. */
  lemma IntendedZoneOfKey(key: string, offset: int, epsg: int)
    requires |key| == 3 && AllDigits(key[..2]) && SuffixOffset(key[2]) == Some(offset)
    requires 1 <= DecimalValue(key[..2]) == epsg - offset <= 60
    ensures UtmZoneToEpsgIntended(key) == Ok(epsg)
  {
    assert key[..|key| - 1] == key[..2];
    ParseIntOfDigits(key[..2]);
    IntendedZoneOfParts(key, offset, epsg - offset);
  }

  /** Every code the intended function gives is a UTM code. */
  lemma IntendedCodesAreUtm(zone: string)
    ensures UtmZoneToEpsgIntended(zone).Ok? ==>
              var e := UtmZoneToEpsgIntended(zone).value;
              32601 <= e <= 32660 || 32701 <= e <= 32760
  {
  }

  /** With zones 1-60 the two functions are inverse on the codes: every
      code accepted is one `utm_key` names, and every code `utm_key`
      names is given back. */
  lemma IntendedZonesRoundTrip(zone: string, epsg: int)
    ensures UtmZoneToEpsgIntended(zone) == Ok(epsg) ==> UtmKey(epsg, None).Ok?
    ensures (32601 <= epsg <= 32660 || 32701 <= epsg <= 32760) ==>
              UtmKey(epsg, None).Ok? && UtmZoneToEpsgIntended(UtmKey(epsg, None).value) == Ok(epsg)
  {
    IntendedCodesAreUtm(zone);
    UtmKeyShape(epsg);
    if 32601 <= epsg <= 32660 || 32701 <= epsg <= 32760 {
      IntendedZoneOfKey(UtmKey(epsg, None).value, if epsg <= 32660 then 32600 else 32700, epsg);
    }
  }
}
