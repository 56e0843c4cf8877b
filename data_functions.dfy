/** The ride-summary helpers of `modules/data_functions.py`: unit
    conversions, safe list access, the `H:M:S` format, the cells of one
    summary row, and the daily training-stress series. */
module DataFunctions {
  import opened Wrappers
  import opened JsonValues
  import opened Rides
  import opened Hub
  import opened PowerFunctions
  import opened Sorting
  import UniversalFunctions

  // ----- unit conversions -----

  const MphPerMps: real := 2.23694
  const MilesPerMeter: real := 0.000621371
  const FeetPerMeter: real := 3.28084

  /** `_convert_mps_to_mph`. */
  function ConvertMpsToMph(v: real): (r: real)
    ensures (r > 0.0 <==> v > 0.0) && (r == 0.0 <==> v == 0.0)
  {
    v * MphPerMps
  }

  /** `_convert_meters_to_miles`. */
  function ConvertMetersToMiles(v: real): (r: real)
    ensures (r > 0.0 <==> v > 0.0) && (r == 0.0 <==> v == 0.0)
  {
    v * MilesPerMeter
  }

  /** `_convert_meters_to_feet`. */
  function ConvertMetersToFeet(v: real): (r: real)
    ensures (r > 0.0 <==> v > 0.0) && (r == 0.0 <==> v == 0.0)
  {
    v * FeetPerMeter
  }

  /** Each conversion is a positive scaling: it keeps zero, sign and order,
      and adds up over sums. */
  lemma ConversionsAreScalings(a: real, b: real)
    ensures ConvertMpsToMph(0.0) == 0.0 && ConvertMetersToMiles(0.0) == 0.0 && ConvertMetersToFeet(0.0) == 0.0
    ensures a <= b ==> ConvertMpsToMph(a) <= ConvertMpsToMph(b)
    ensures a <= b ==> ConvertMetersToMiles(a) <= ConvertMetersToMiles(b)
    ensures a <= b ==> ConvertMetersToFeet(a) <= ConvertMetersToFeet(b)
    ensures ConvertMpsToMph(a + b) == ConvertMpsToMph(a) + ConvertMpsToMph(b)
    ensures ConvertMetersToMiles(a + b) == ConvertMetersToMiles(a) + ConvertMetersToMiles(b)
    ensures ConvertMetersToFeet(a + b) == ConvertMetersToFeet(a) + ConvertMetersToFeet(b)
  {
  }

  /** A mile is more than 1609 and less than 1610 meters, and a meter a bit
      more than 3.28 feet: the constants are the usual ones. */
  lemma ConversionConstantsPlausible()
    ensures 1609.0 * MilesPerMeter < 1.0 < 1610.0 * MilesPerMeter
    ensures 3.28 < FeetPerMeter < 3.29
    ensures ConvertMpsToMph(1609.344 / 3600.0) < 1.0001 && ConvertMpsToMph(1609.344 / 3600.0) > 0.9999
  {
  }

  // ----- list access -----

  /** `_grab_element_of_list_if_exists`: `None` for a falsy value, and
      otherwise `value[index]`, with the error that indexing raises. */
  function GrabElementOfListIfExists(value: Json, index: nat): (r: Result<Json>)
    ensures !Truthy(value) ==> r == Ok(JNone)
    ensures Truthy(value) && value.JList? ==>
              r == if index < |value.items| then Ok(value.items[index]) else Err(IndexError)
    ensures Truthy(value) && value.JStr? ==>
              r == if index < |value.s| then Ok(JStr([value.s[index]])) else Err(IndexError)
    ensures Truthy(value) && value.JDict? ==> r == Err(KeyError)
    ensures Truthy(value) && !(value.JList? || value.JStr? || value.JDict?) ==> r == Err(TypeError)
  {
    if !Truthy(value) then Ok(JNone)
    else match value
      case JList(xs) => if index < |xs| then Ok(xs[index]) else Err(IndexError)
      case JStr(s) => if index < |s| then Ok(JStr([s[index]])) else Err(IndexError)
      case JDict(_) => Err(KeyError)
      case _ => Err(TypeError)
  }

  /** A Strava `[latitude, longitude]` pair gives back both coordinates, and
      an activity without coordinates (an empty list) gives `None` for both. */
  lemma LatLngElements(latlng: Json)
    requires latlng.JList? && (|latlng.items| == 0 || |latlng.items| == 2)
    ensures |latlng.items| == 2 ==> GrabElementOfListIfExists(latlng, 0) == Ok(latlng.items[0])
    ensures |latlng.items| == 2 ==> GrabElementOfListIfExists(latlng, 1) == Ok(latlng.items[1])
    ensures |latlng.items| == 0 ==> GrabElementOfListIfExists(latlng, 0) == Ok(JNone)
    ensures |latlng.items| == 0 ==> GrabElementOfListIfExists(latlng, 1) == Ok(JNone)
  {
  }

  // ----- decimal strings and the H:M:S format -----

  predicate IsDigit(c: char) { '0' <= c <= '9' }

  function DigitChar(d: nat): (c: char)
    requires d < 10
    ensures IsDigit(c)
  {
    ['0', '1', '2', '3', '4', '5', '6', '7', '8', '9'][d]
  }

  function DigitValue(c: char): (d: nat)
    requires IsDigit(c)
    ensures d < 10
  {
    (c as int - '0' as int) as nat
  }

  /** `str` of a non-negative integer: its decimal digits, with no leading
      zero. */
  function NatToString(n: nat): (s: string)
    ensures |s| >= 1
    ensures forall i :: 0 <= i < |s| ==> IsDigit(s[i])
    ensures n >= 10 ==> s[0] != '0'
    decreases n
  {
    if n < 10 then [DigitChar(n)] else NatToString(n / 10) + [DigitChar(n % 10)]
  }

  /** `str` of any integer. */
  function IntToString(i: int): (s: string)
    ensures i >= 0 ==> s == NatToString(i)
    ensures i < 0 ==> s == "-" + NatToString(-i)
  {
    if i < 0 then "-" + NatToString(-i) else NatToString(i)
  }

  /** The value of a string of decimal digits. */
  function ParseNat(s: string): nat
    requires forall i :: 0 <= i < |s| ==> IsDigit(s[i])
  {
    if s == [] then 0 else ParseNat(s[..|s| - 1]) * 10 + DigitValue(s[|s| - 1])
  }

  lemma DigitRoundTrip(d: nat)
    requires d < 10
    ensures DigitValue(DigitChar(d)) == d
  {
  }

  /** Reading back the decimal string of `n` gives `n`. */
  lemma {:induction false} ParseNatToString(n: nat)
    ensures ParseNat(NatToString(n)) == n
    decreases n
  {
    DigitRoundTrip(n % 10);
    if n >= 10 {
      var s := NatToString(n);
      var init := NatToString(n / 10);
      assert s == init + [DigitChar(n % 10)];
      assert s[..|s| - 1] == init && s[|s| - 1] == DigitChar(n % 10);
      ParseNatToString(n / 10);
      assert ParseNat(s) == ParseNat(init) * 10 + DigitValue(DigitChar(n % 10));
      assert (n / 10) * 10 + n % 10 == n;
    } else {
      assert NatToString(n) == [DigitChar(n)];
      assert NatToString(n)[..0] == [];
    }
  }

  /** The `divmod` steps: minutes and seconds from the total, then hours and
      minutes from the minutes. Python's `divmod` rounds toward negative
      infinity, as Dafny's `/` and `%` do for a positive divisor. */
  function HmsParts(totalSeconds: int): (p: (int, int, int))
    ensures p.0 * 3600 + p.1 * 60 + p.2 == totalSeconds
    ensures 0 <= p.1 < 60 && 0 <= p.2 < 60
    ensures totalSeconds >= 0 ==> p.0 >= 0
  {
    var minutes, seconds := totalSeconds / 60, totalSeconds % 60;
    var hours, minutes' := minutes / 60, minutes % 60;
    (hours, minutes', seconds)
  }

  /** The parts are the only ones with minutes and seconds below 60. */
  lemma HmsPartsUnique(totalSeconds: int, h: int, m: int, s: int)
    requires h * 3600 + m * 60 + s == totalSeconds && 0 <= m < 60 && 0 <= s < 60
    ensures HmsParts(totalSeconds) == (h, m, s)
  {
    var p := HmsParts(totalSeconds);
    assert (p.0 - h) * 3600 + (p.1 - m) * 60 + (p.2 - s) == 0;
    assert (p.2 - s) % 60 == 0 by {
      assert p.2 - s == 60 * ((h - p.0) * 60 + (m - p.1));
    }
    assert p.2 == s;
    assert (p.0 - h) * 60 + (p.1 - m) == 0;
    assert p.1 == m;
  }

  /** `_convert_total_seconds_to_HMS_format`: `"h:m:s"` without zero
      padding. */
  function ConvertTotalSecondsToHms(totalSeconds: int): (s: string)
  {
    var p := HmsParts(totalSeconds);
    IntToString(p.0) + ":" + IntToString(p.1) + ":" + IntToString(p.2)
  }

  /** `str` of a float holding a whole number below 10^16: its digits and
      `.0`. */
  function FloatText(n: int): (s: string)
    ensures s == IntToString(n) + ".0"
  {
    IntToString(n) + ".0"
  }

  /** `_convert_total_seconds_to_HMS_format` of a whole number of seconds
      held as a float: float `divmod` gives float parts, each printed with
      `.0`. */
  function ConvertFloatSecondsToHms(totalSeconds: int): (s: string)
  {
    var p := HmsParts(totalSeconds);
    FloatText(p.0) + ":" + FloatText(p.1) + ":" + FloatText(p.2)
  }

  /** The pieces of a string between colons. */
  function SplitOnColons(s: string): (parts: seq<string>)
    ensures |parts| >= 1
  {
    if s == [] then [[]]
    else
      var rest := SplitOnColons(s[1..]);
      if s[0] == ':' then [[]] + rest else [[s[0]] + rest[0]] + rest[1..]
  }

  lemma {:induction false} SplitNoColon(a: string)
    requires ':' !in a
    ensures SplitOnColons(a) == [a]
  {
    if a != [] {
      SplitNoColon(a[1..]);
      assert a == [a[0]] + a[1..];
    }
  }

  lemma {:induction false} SplitAtColon(a: string, b: string)
    requires ':' !in a
    ensures SplitOnColons(a + ":" + b) == [a] + SplitOnColons(b)
  {
    if a == [] {
      assert a + ":" + b == [':'] + b;
      assert ([':'] + b)[1..] == b;
    } else {
      assert (a + ":" + b)[1..] == a[1..] + ":" + b;
      SplitAtColon(a[1..], b);
      assert a == [a[0]] + a[1..];
    }
  }

  /** For a non-negative total, the string splits at its two colons into
      three decimal numbers, minutes and seconds below 60, that give back
      the total. */
  lemma HmsRoundTrip(totalSeconds: int)
    requires totalSeconds >= 0
    ensures |SplitOnColons(ConvertTotalSecondsToHms(totalSeconds))| == 3
    ensures var parts := SplitOnColons(ConvertTotalSecondsToHms(totalSeconds));
            (forall k, i :: 0 <= k < 3 && 0 <= i < |parts[k]| ==> IsDigit(parts[k][i])) &&
            ParseNat(parts[1]) < 60 && ParseNat(parts[2]) < 60 &&
            ParseNat(parts[0]) * 3600 + ParseNat(parts[1]) * 60 + ParseNat(parts[2]) == totalSeconds
  {
    var p := HmsParts(totalSeconds);
    var hs, ms, ss := NatToString(p.0), NatToString(p.1), NatToString(p.2);
    assert ':' !in hs && ':' !in ms && ':' !in ss by {
      assert !IsDigit(':');
    }
    assert ConvertTotalSecondsToHms(totalSeconds) == hs + ":" + (ms + ":" + ss);
    SplitAtColon(hs, ms + ":" + ss);
    SplitAtColon(ms, ss);
    SplitNoColon(ss);
    var parts := SplitOnColons(ConvertTotalSecondsToHms(totalSeconds));
    assert parts == [hs, ms, ss];
    ParseNatToString(p.0);
    ParseNatToString(p.1);
    ParseNatToString(p.2);
  }

  /** Examples: an hour, a minute and a second; and a ride of 3725 seconds. */
  lemma HmsExamples()
    ensures HmsParts(3661) == (1, 1, 1)
    ensures HmsParts(3725) == (1, 2, 5)
    ensures HmsParts(59) == (0, 0, 59)
    ensures ConvertTotalSecondsToHms(3725) == "1:2:5"
    ensures ConvertFloatSecondsToHms(3725) == "1.0:2.0:5.0"
  {
    assert NatToString(1) == "1" && NatToString(2) == "2" && NatToString(5) == "5";
  }

  // ----- the ride summary frame -----

  /** `master_column_list`: the summary's columns, in order, written as runs
      of ten so that each position is quick to look up. */
  const MasterColumns: seq<string> := Columns0 + Columns1 + Columns2 + Columns3 + Columns4 + Columns5 + Columns6
  const Columns0: seq<string> := [
    "resource_state", "id", "athlete_id", "name", "distance", "moving_time", "moving_time_seconds",
    "elapsed_time", "elapsed_time_seconds", "total_elevation_gain"
  ]
  const Columns1: seq<string> := [
    "type", "sport_type", "workout_type", "start_date", "location_city", "location_state",
    "location_country", "achievement_count", "kudos_count", "comment_count"
  ]
  const Columns2: seq<string> := [
    "athlete_count", "photo_count", "map_id", "polyline", "trainer", "manual", "private",
    "visibility", "flagged", "gear_id"
  ]
  const Columns3: seq<string> := [
    "starting_latitude", "starting_longitude", "ending_latitude", "ending_longitude",
    "average_speed", "max_speed", "average_cadence", "average_temp", "average_watts", "max_watts"
  ]
  const Columns4: seq<string> := [
    "weighted_average_watts", "kilojoules", "device_watts", "has_heartrate", "average_heartrate",
    "max_heartrate", "heartrate_opt_out", "display_hide_heartrate_option", "elev_high", "elev_low"
  ]
  const Columns5: seq<string> := [
    "upload_id", "upload_id_str", "external_id", "from_accepted_tag", "pr_count",
    "total_photo_count", "has_kudoed", "suffer_score", "normalized_power", "intensity_factor"
  ]
  const Columns6: seq<string> := [
    "tss"
  ]

  /** The metadata columns `create_ride_summary_dataframe` reads as
      attributes of the frame; a frame lacking one raises `AttributeError`. */
  const ReadColumns: set<string> := {
    "average_speed", "start_latlng", "end_latlng", "athlete", "map", "distance", "total_elevation_gain",
    "elev_high", "elev_low", "moving_time", "elapsed_time", "id", "start_date"
  }

  /** The columns it creates. */
  const AddedColumns: set<string> := {
    "starting_latitude", "starting_longitude", "ending_latitude", "ending_longitude", "athlete_id", "map_id",
    "polyline", "moving_time_seconds", "elapsed_time_seconds", "moving_time", "elapsed_time",
    "normalized_power", "intensity_factor", "tss"
  }

  /** `calculate_training_stress_score(moving_time_seconds, normalized_power,
      intensity_factor, ftp)`, which is not part of this model. */
  type TssFunction = (Json, Json, Json, real) -> Json

  /** A ride's entry in a frame column: `None` where its metadata lacks the
      key, which pandas fills with NaN. */
  function Cell(md: Dict, col: string): (c: Option<Json>)
    ensures c.Some? <==> col in md
    ensures c.Some? ==> c.value == md[col]
  {
    if col in md then Some(md[col]) else None
  }

  /** The number a value stands for; `True` and `False` count as 1 and 0. */
  function NumberOf(j: Json): Option<real>
  {
    match j
    case JInt(i) => Some(i as real)
    case JFloat(x) => Some(x)
    case JBool(b) => Some(if b then 1.0 else 0.0)
    case _ => None
  }

  /** `column.map(convert)` for one entry of a column stored as `st`: a
      number is scaled and a missing value stays missing. `None` is NaN in
      a `float64` column but stays `None` in an object column, and
      multiplying it, or anything else that is not a number, raises
      `TypeError`. */
  function ScaleCell(c: Option<Json>, factor: real, st: Storage): (r: Result<Json>)
    ensures c.None? ==> r == Ok(JNone)
    ensures c == Some(JNone) ==> r == if st == Floats then Ok(JNone) else Err(TypeError)
    ensures c.Some? && NumberOf(c.value).Some? ==> r == Ok(JFloat(NumberOf(c.value).value * factor))
    ensures r.Err? <==> c.Some? && NumberOf(c.value).None? && (c.value != JNone || st.Objects?)
    ensures r.Err? ==> r.error == TypeError
  {
    match c
    case None => Ok(JNone)
    case Some(j) =>
      if j.JNone? then (assert NumberOf(j).None?; if st == Floats then Ok(JNone) else Err(TypeError))
      else if NumberOf(j).Some? then
        var v := NumberOf(j).value * factor;
        assert v == NumberOf(c.value).value * factor;
        Ok(JFloat(v))
      else Err(TypeError)
  }

  /** `_grab_element_of_list_if_exists` applied to one entry: NaN is truthy
      and cannot be indexed. */
  function GrabCell(c: Option<Json>, index: nat): (r: Result<Json>)
    ensures c.None? ==> r == Err(TypeError)
    ensures c.Some? ==> r == GrabElementOfListIfExists(c.value, index)
  {
    match c
    case None => Err(TypeError)
    case Some(j) => GrabElementOfListIfExists(j, index)
  }

  /** `lambda x: x[key]` applied to one entry. */
  function KeyCell(c: Option<Json>, key: string): (r: Result<Json>)
    ensures r.Ok? <==> c.Some? && c.value.JDict? && key in c.value.fields
    ensures r.Ok? ==> r.value == c.value.fields[key]
    ensures c.Some? && c.value.JDict? && key !in c.value.fields ==> r == Err(KeyError)
    ensures !(c.Some? && c.value.JDict?) ==> r == Err(TypeError)
  {
    match c
    case Some(JDict(m)) => if key in m then Ok(m[key]) else Err(KeyError)
    case _ => Err(TypeError)
  }

  /** How pandas stores a column of seconds, which decides how `divmod`
      prints its entries. A column of numbers that holds a NaN (a ride
      without the key, or `None` beside an integer) or a float is `float64`:
      every entry is a float, and `None` is NaN. Any other column keeps
      Python values: integers and booleans print as integers, and `None`
      stays `None`. */
  datatype Storage = Floats | Objects

  /** The storage of the columns whose entries are converted or formatted. */
  datatype FrameStorage = FrameStorage(
    averageSpeed: Storage, distance: Storage, gain: Storage, elevHigh: Storage, elevLow: Storage,
    moving: Storage, elapsed: Storage)

  /** An entry that a `float64` column can hold. */
  predicate NumericOrNull(c: Option<Json>)
  {
    c.None? || c.value.JNone? || c.value.JInt? || c.value.JFloat?
  }

  /** An entry that makes a column of numbers `float64`. */
  predicate MakesFloats(mds: seq<Dict>, col: string, k: nat)
    requires k < |mds|
  {
    col !in mds[k] || mds[k][col].JFloat? ||
    (mds[k][col].JNone? && exists j :: 0 <= j < |mds| && col in mds[j] && mds[j][col].JInt?)
  }

  /** The storage pandas picks for column `col` of the rides' frame. */
  function ColumnStorage(mds: seq<Dict>, col: string): (st: Storage)
    ensures st == Floats <==>
              (forall k :: 0 <= k < |mds| ==> NumericOrNull(Cell(mds[k], col))) &&
              (exists k :: 0 <= k < |mds| && MakesFloats(mds, col, k))
  {
    if (forall k :: 0 <= k < |mds| ==> NumericOrNull(Cell(mds[k], col))) &&
       (exists k :: 0 <= k < |mds| && MakesFloats(mds, col, k))
    then Floats else Objects
  }

  /** The storage of every converted or formatted column of the rides' frame. */
  function FrameStorageOf(mds: seq<Dict>): (st: FrameStorage)
    ensures st.averageSpeed == ColumnStorage(mds, "average_speed") && st.distance == ColumnStorage(mds, "distance")
    ensures st.gain == ColumnStorage(mds, "total_elevation_gain")
    ensures st.elevHigh == ColumnStorage(mds, "elev_high") && st.elevLow == ColumnStorage(mds, "elev_low")
    ensures st.moving == ColumnStorage(mds, "moving_time") && st.elapsed == ColumnStorage(mds, "elapsed_time")
  {
    FrameStorage(
      ColumnStorage(mds, "average_speed"), ColumnStorage(mds, "distance"), ColumnStorage(mds, "total_elevation_gain"),
      ColumnStorage(mds, "elev_high"), ColumnStorage(mds, "elev_low"),
      ColumnStorage(mds, "moving_time"), ColumnStorage(mds, "elapsed_time"))
  }

  /** How pandas stores a stream of samples, a column of the frame built
      from the dictionary of streams: a list of numbers that holds a float,
      or `None` beside an integer, is `float64`; any other list keeps Python
      values, so `None` stays `None`. */
  function StreamStorage(xs: seq<Json>): (st: Storage)
    ensures st == Floats <==>
              (forall k :: 0 <= k < |xs| ==> NumericOrNull(Some(xs[k]))) &&
              (exists k :: 0 <= k < |xs| && (xs[k].JFloat? || (xs[k].JNone? && exists j :: 0 <= j < |xs| && xs[j].JInt?)))
  {
    if (forall k :: 0 <= k < |xs| ==> NumericOrNull(Some(xs[k]))) &&
       (exists k :: 0 <= k < |xs| && (xs[k].JFloat? || (xs[k].JNone? && exists j :: 0 <= j < |xs| && xs[j].JInt?)))
    then Floats else Objects
  }

  /** `_convert_total_seconds_to_HMS_format` applied to one entry: `divmod`
      of NaN gives NaN throughout, an integer in a `float64` column is a
      float, and `None` kept as an object cannot be divided. */
  function HmsCell(c: Option<Json>, st: Storage): (r: Result<Json>)
    ensures c.Some? && c.value.JInt? && st == Objects ==> r == Ok(JStr(ConvertTotalSecondsToHms(c.value.i)))
    ensures c.Some? && c.value.JInt? && st == Floats ==> r == Ok(JStr(ConvertFloatSecondsToHms(c.value.i)))
    ensures c.Some? && c.value.JFloat? && c.value.r == c.value.r.Floor as real ==>
              r == Ok(JStr(ConvertFloatSecondsToHms(c.value.r.Floor)))
    ensures c.None? ==> r == Ok(JStr("nan:nan:nan"))
    ensures c == Some(JNone) ==> r == if st == Floats then Ok(JStr("nan:nan:nan")) else Err(TypeError)
    ensures c.Some? && (c.value.JStr? || c.value.JList? || c.value.JDict?) ==> r == Err(TypeError)
  {
    match c
    case None => Ok(JStr("nan:nan:nan"))
    case Some(JNone) => if st == Floats then Ok(JStr("nan:nan:nan")) else Err(TypeError)
    case Some(JInt(t)) =>
      if st == Floats then Ok(JStr(ConvertFloatSecondsToHms(t))) else Ok(JStr(ConvertTotalSecondsToHms(t)))
    case Some(JBool(b)) => Ok(JStr(ConvertTotalSecondsToHms(if b then 1 else 0)))
    case Some(JFloat(x)) => if x == x.Floor as real then Ok(JStr(ConvertFloatSecondsToHms(x.Floor))) else Err(TypeError)
    case Some(_) => Err(TypeError)
  }

  /** A column of whole seconds with one ride lacking the key is stored as
      floats, so 3725 seconds print as `"1.0:2.0:5.0"`; with every ride
      holding an integer they print as `"1:2:5"`. */
  lemma FloatColumnExample()
    ensures var mds := [map["moving_time" := JInt(3725)], map[]];
            ColumnStorage(mds, "moving_time") == Floats &&
            HmsCell(Cell(mds[0], "moving_time"), ColumnStorage(mds, "moving_time")) == Ok(JStr("1.0:2.0:5.0"))
    ensures var mds := [map["moving_time" := JInt(3725)], map["moving_time" := JInt(60)]];
            ColumnStorage(mds, "moving_time") == Objects &&
            HmsCell(Cell(mds[0], "moving_time"), ColumnStorage(mds, "moving_time")) == Ok(JStr("1:2:5"))
  {
    var mds: seq<Dict> := [map["moving_time" := JInt(3725)], map[]];
    assert MakesFloats(mds, "moving_time", 1);
    HmsExamples();
    var mds2: seq<Dict> := [map["moving_time" := JInt(3725)], map["moving_time" := JInt(60)]];
    assert !MakesFloats(mds2, "moving_time", 0) && !MakesFloats(mds2, "moving_time", 1);
  }

  /** `output_df.id.map(normalized_power_dict)`: an id the dictionary lacks
      maps to NaN. */
  function NormalizedPowerCell(c: Option<Json>, npd: map<Json, int>): (r: Json)
    ensures c.Some? && c.value in npd ==> r == JInt(npd[c.value])
    ensures !(c.Some? && c.value in npd) ==> r == JNone
  {
    if c.Some? && c.value in npd then JInt(npd[c.value]) else JNone
  }

  /** `lambda x: x / CURRENT_FTP`: NaN stays NaN, and dividing anything by
      zero raises `ZeroDivisionError`. */
  function IntensityFactorCell(np: Json, ftp: real): (r: Result<Json>)
    ensures ftp == 0.0 ==> r == Err(ZeroDivisionError)
    ensures ftp != 0.0 && np.JInt? ==> r.Ok? && r.value.JFloat? && r.value.r == np.i as real / ftp
    ensures ftp != 0.0 && !np.JInt? ==> r == Ok(JNone)
  {
    if ftp == 0.0 then Err(ZeroDivisionError)
    else if np.JInt? then Ok(JFloat(np.i as real / ftp))
    else Ok(JNone)
  }

  /** `pd.to_datetime` of a start date held as seconds since the epoch. */
  function StartDateCell(c: Option<Json>): (r: Result<Json>)
    ensures r.Ok? <==> c.Some? && c.value.JInt?
    ensures r.Ok? ==> r.value == c.value
    ensures r.Err? ==> r.error == ValueError
  {
    if c.Some? && c.value.JInt? then Ok(c.value) else Err(ValueError)
  }

  /** The column values `create_ride_summary_dataframe` computes for one
      ride. `maxSpeed` is `None` when the frame has no `max_speed` column:
      the statement then only sets an attribute of the frame object. */
  datatype SummaryCells = SummaryCells(
    averageSpeed: Json, maxSpeed: Option<Json>,
    startLat: Json, startLng: Json, endLat: Json, endLng: Json,
    athleteId: Json, mapId: Json, polyline: Json,
    distance: Json, gain: Json, elevHigh: Json, elevLow: Json,
    movingSeconds: Json, elapsedSeconds: Json, movingTime: Json, elapsedTime: Json,
    normalizedPower: Json, intensityFactor: Json, tss: Json, startDate: Json)

  /** The computed values for one ride, taken in the order of the statements
      of `create_ride_summary_dataframe`; the first that raises decides the
      error. */
  function ComputeCells(md: Dict, cols: set<string>, store: FrameStorage, npd: map<Json, int>, ftp: real, tss: TssFunction): Result<SummaryCells>
  {
    var averageSpeed :- ScaleCell(Cell(md, "average_speed"), MphPerMps, store.averageSpeed);
    var maxSpeed :- ScaleCell(Some(averageSpeed), MphPerMps, Floats);
    var startLat :- GrabCell(Cell(md, "start_latlng"), 0);
    var startLng :- GrabCell(Cell(md, "start_latlng"), 1);
    var endLat :- GrabCell(Cell(md, "end_latlng"), 0);
    var endLng :- GrabCell(Cell(md, "end_latlng"), 1);
    var athleteId :- KeyCell(Cell(md, "athlete"), "id");
    var mapId :- KeyCell(Cell(md, "map"), "id");
    var polyline :- KeyCell(Cell(md, "map"), "summary_polyline");
    var distance :- ScaleCell(Cell(md, "distance"), MilesPerMeter, store.distance);
    var gain :- ScaleCell(Cell(md, "total_elevation_gain"), FeetPerMeter, store.gain);
    var elevHigh :- ScaleCell(Cell(md, "elev_high"), FeetPerMeter, store.elevHigh);
    var elevLow :- ScaleCell(Cell(md, "elev_low"), FeetPerMeter, store.elevLow);
    var movingSeconds := DictGet(md, "moving_time");
    var elapsedSeconds := DictGet(md, "elapsed_time");
    var movingTime :- HmsCell(Cell(md, "moving_time"), store.moving);
    var elapsedTime :- HmsCell(Cell(md, "elapsed_time"), store.elapsed);
    var np := NormalizedPowerCell(Cell(md, "id"), npd);
    var intensity :- IntensityFactorCell(np, ftp);
    var startDate :- StartDateCell(Cell(md, "start_date"));
    Ok(SummaryCells(
      averageSpeed, if "max_speed" in cols then Some(maxSpeed) else None,
      startLat, startLng, endLat, endLng, athleteId, mapId, polyline,
      distance, gain, elevHigh, elevLow, movingSeconds, elapsedSeconds, movingTime, elapsedTime,
      np, intensity, tss(movingSeconds, np, intensity, ftp), startDate))
  }

  /** The computed value of a column, if it is one of those computed. */
  function ComputedCell(c: SummaryCells, col: string): Option<Json>
  {
    if col == "average_speed" then Some(c.averageSpeed)
    else if col == "max_speed" then c.maxSpeed
    else if col == "starting_latitude" then Some(c.startLat)
    else if col == "starting_longitude" then Some(c.startLng)
    else if col == "ending_latitude" then Some(c.endLat)
    else if col == "ending_longitude" then Some(c.endLng)
    else if col == "athlete_id" then Some(c.athleteId)
    else if col == "map_id" then Some(c.mapId)
    else if col == "polyline" then Some(c.polyline)
    else if col == "distance" then Some(c.distance)
    else if col == "total_elevation_gain" then Some(c.gain)
    else if col == "elev_high" then Some(c.elevHigh)
    else if col == "elev_low" then Some(c.elevLow)
    else if col == "moving_time_seconds" then Some(c.movingSeconds)
    else if col == "elapsed_time_seconds" then Some(c.elapsedSeconds)
    else if col == "moving_time" then Some(c.movingTime)
    else if col == "elapsed_time" then Some(c.elapsedTime)
    else if col == "normalized_power" then Some(c.normalizedPower)
    else if col == "intensity_factor" then Some(c.intensityFactor)
    else if col == "tss" then Some(c.tss)
    else if col == "start_date" then Some(c.startDate)
    else None
  }

  /** One summary row: `master_column_list` order, each column the computed
      value or else the ride's own metadata value (NaN where it has none). */
  function SummaryRow(md: Dict, cols: set<string>, store: FrameStorage, npd: map<Json, int>, ftp: real, tss: TssFunction): (r: Result<seq<Json>>)
    ensures r.Ok? <==> ComputeCells(md, cols, store, npd, ftp, tss).Ok?
    ensures r.Ok? ==> |r.value| == |MasterColumns|
  {
    var cells :- ComputeCells(md, cols, store, npd, ftp, tss);
    Ok(RowOf(cells, md))
  }

  /** The row of one ride once its computed values are known. */
  function RowOf(c: SummaryCells, md: Dict): (row: seq<Json>)
    ensures |row| == |MasterColumns|
  {
    seq(|MasterColumns|, i requires 0 <= i < |MasterColumns| =>
      match ComputedCell(c, MasterColumns[i])
      case Some(v) => v
      case None => DictGet(md, MasterColumns[i]))
  }

  /** The time columns of a row hold the computed store and the start date. */
  lemma RowOfTimeColumns(c: SummaryCells, md: Dict)
    ensures var row := RowOf(c, md);
            row[5] == c.movingTime && row[6] == c.movingSeconds &&
            row[7] == c.elapsedTime && row[8] == c.elapsedSeconds && row[13] == c.startDate
  {
    assert MasterColumns[5] == "moving_time" && MasterColumns[6] == "moving_time_seconds";
    assert MasterColumns[7] == "elapsed_time" && MasterColumns[8] == "elapsed_time_seconds";
    assert MasterColumns[13] == "start_date";
  }

  /** The coordinate columns of a row hold the computed coordinates. */
  lemma RowOfPlaceColumns(c: SummaryCells, md: Dict)
    ensures var row := RowOf(c, md);
            row[30] == c.startLat && row[31] == c.startLng && row[32] == c.endLat && row[33] == c.endLng
  {
    assert MasterColumns[30] == "starting_latitude" && MasterColumns[31] == "starting_longitude";
    assert MasterColumns[32] == "ending_latitude" && MasterColumns[33] == "ending_longitude";
  }

  /** The speed columns of a row hold the computed speeds. */
  lemma RowOfSpeedColumns(c: SummaryCells, md: Dict)
    ensures var row := RowOf(c, md);
            row[34] == c.averageSpeed && (c.maxSpeed.Some? ==> row[35] == c.maxSpeed.value)
  {
    assert MasterColumns[34] == "average_speed" && MasterColumns[35] == "max_speed";
  }

  /** The power columns of a row hold the computed power, intensity and
      stress. */
  lemma RowOfPowerColumns(c: SummaryCells, md: Dict)
    ensures var row := RowOf(c, md);
            row[6] == c.movingSeconds &&
            row[58] == c.normalizedPower && row[59] == c.intensityFactor && row[60] == c.tss
  {
    assert MasterColumns[6] == "moving_time_seconds";
    assert MasterColumns[58] == "normalized_power" && MasterColumns[59] == "intensity_factor";
    assert MasterColumns[60] == "tss";
  }

  /** `SummaryRow` with the frame-wide arguments fixed. */
  function RowMaker(cols: set<string>, store: FrameStorage, npd: map<Json, int>, ftp: real, tss: TssFunction): Dict -> Result<seq<Json>>
  {
    md => SummaryRow(md, cols, store, npd, ftp, tss)
  }

  lemma RowMakerWidth(cols: set<string>, store: FrameStorage, npd: map<Json, int>, ftp: real, tss: TssFunction, md: Dict)
    ensures RowMaker(cols, store, npd, ftp, tss)(md).Ok? ==> |RowMaker(cols, store, npd, ftp, tss)(md).value| == |MasterColumns|
  {
  }

  /** The rides' metadata dictionaries. A list that mixes dictionaries with
      other values makes pandas call `.keys()` on each element, and a list
      whose first element is a scalar gives a one-column frame without an
      `average_speed` attribute: either way `AttributeError`. */
  function Metadatas(rides: seq<StravaRide>): (r: Result<seq<Dict>>)
    ensures r.Ok? <==> forall k :: 0 <= k < |rides| ==> rides[k].metadata.JDict?
    ensures r.Ok? ==> |r.value| == |rides| && forall k :: 0 <= k < |rides| ==> r.value[k] == rides[k].metadata.fields
    ensures r.Err? ==> r.error == AttributeError
  {
    if rides == [] then Ok([])
    else if !rides[0].metadata.JDict? then Err(AttributeError)
    else match Metadatas(rides[1..])
      case Err(e) => Err(e)
      case Ok(rest) =>
        assert forall k :: 1 <= k < |rides| ==> rides[k] == rides[1..][k - 1];
        Ok([rides[0].metadata.fields] + rest)
  }

  /** The columns of `pd.DataFrame(list_of_dicts)`: every key of any row. */
  function UnionKeys(mds: seq<Dict>): (cols: set<string>)
    ensures forall k, c :: 0 <= k < |mds| && c in mds[k] ==> c in cols
    ensures forall c :: c in cols ==> exists k :: 0 <= k < |mds| && c in mds[k]
  {
    if mds == [] then {}
    else
      var rest := UnionKeys(mds[1..]);
      assert forall k :: 1 <= k < |mds| ==> mds[k] == mds[1..][k - 1];
      mds[0].Keys + rest
  }

  /** A dictionary built from key/value pairs in order; a later pair
      overwrites an earlier one with the same key. */
  function PairsToMap<K(!new), V>(keys: seq<K>, vals: seq<V>): (m: map<K, V>)
    requires |keys| == |vals|
    ensures forall key :: key in m <==> key in keys
  {
    if keys == [] then map[]
    else
      var n := |keys| - 1;
      assert keys == keys[..n] + [keys[n]];
      PairsToMap(keys[..n], vals[..n])[keys[n] := vals[n]]
  }

  /** Each key maps to the value of the last pair holding it. */
  lemma {:induction false} PairsToMapLastWins<K(!new), V>(keys: seq<K>, vals: seq<V>, k: nat)
    requires |keys| == |vals| && k < |keys|
    requires forall j :: k < j < |keys| ==> keys[j] != keys[k]
    ensures keys[k] in PairsToMap(keys, vals) && PairsToMap(keys, vals)[keys[k]] == vals[k]
  {
    var n := |keys| - 1;
    if k < n {
      assert forall j :: k < j < n ==> keys[..n][j] == keys[j];
      PairsToMapLastWins(keys[..n], vals[..n], k);
    }
  }

  /** `create_normalized_power_dict`: ride id to normalized power, the rides
      taken in hub order, so a later ride overwrites an earlier one with the
      same id and the first ride whose power cannot be computed decides the
      error. */
  function NormalizedPowerDict(rides: seq<StravaRide>, rootMeanFourth: seq<real> -> int): (r: Result<map<Json, int>>)
    ensures r.Ok? <==> forall k :: 0 <= k < |rides| ==> CalculateNormalizedPowerFromMetricsDict(rides[k].metricsDict, rootMeanFourth).Ok?
    ensures r.Err? ==>
              exists k :: 0 <= k < |rides| &&
                CalculateNormalizedPowerFromMetricsDict(rides[k].metricsDict, rootMeanFourth) == Err(r.error) &&
                forall j :: 0 <= j < k ==> CalculateNormalizedPowerFromMetricsDict(rides[j].metricsDict, rootMeanFourth).Ok?
  {
    var powers :- MapResults(rides, (ride: StravaRide) => CalculateNormalizedPowerFromMetricsDict(ride.metricsDict, rootMeanFourth));
    Ok(PairsToMap(IdsOf(rides), powers))
  }

  /** The dictionary has exactly the rides' ids as keys, and each id maps to
      the power of the last ride holding it. */
  lemma NormalizedPowerDictContents(rides: seq<StravaRide>, rootMeanFourth: seq<real> -> int, k: nat)
    requires NormalizedPowerDict(rides, rootMeanFourth).Ok?
    requires k < |rides| && forall j :: k < j < |rides| ==> rides[j].id != rides[k].id
    ensures forall id :: id in NormalizedPowerDict(rides, rootMeanFourth).value <==> id in IdsOf(rides)
    ensures rides[k].id in NormalizedPowerDict(rides, rootMeanFourth).value
    ensures NormalizedPowerDict(rides, rootMeanFourth).value[rides[k].id] ==
            CalculateNormalizedPowerFromMetricsDict(rides[k].metricsDict, rootMeanFourth).value
  {
    var f := (ride: StravaRide) => CalculateNormalizedPowerFromMetricsDict(ride.metricsDict, rootMeanFourth);
    var powers := MapResults(rides, f).value;
    var ids := IdsOf(rides);
    assert f(rides[k]) == Ok(powers[k]);
    PairsToMapLastWins(ids, powers, k);
  }

  /** A row's `start_date`, the sort key. */
  function StartKey(row: seq<Json>): int
  {
    if |row| > 13 && row[13].JInt? then row[13].i else 0
  }

  /** Reindexing to `master_column_list` finds every column: the frame read
      it or the summary added it. */
  predicate HasMasterColumns(cols: set<string>)
  {
    forall i :: 0 <= i < |MasterColumns| ==> MasterColumns[i] in cols + AddedColumns
  }

  /** `create_ride_summary_dataframe`, over the rides of `hub`; `ftp` is the
      configured `CURRENT_FTP`. */
  function CreateRideSummaryDataFrame(hub: RideHub, ftp: real, rootMeanFourth: seq<real> -> int, tss: TssFunction): Result<seq<seq<Json>>>
    reads hub
  {
    var mds :- Metadatas(hub.rideList);
    var cols := UnionKeys(mds);
    if !(ReadColumns <= cols) then Err(AttributeError)
    else
      var npd :- NormalizedPowerDict(hub.rideList, rootMeanFourth);
      var store := FrameStorageOf(mds);
      var rows :- MapResults(mds, RowMaker(cols, store, npd, ftp, tss));
      if !HasMasterColumns(cols) then Err(KeyError)
      else Ok(Distinct(SortBy(rows, StartKey, true)))
  }

  /** Where each computed value comes from. The speed values show the
      quirk: `max_speed` is the converted `average_speed` converted once
      more, whatever the ride's own maximum. */
  lemma ComputeCellsValues(md: Dict, cols: set<string>, store: FrameStorage, npd: map<Json, int>, ftp: real, tss: TssFunction, c: SummaryCells)
    requires ComputeCells(md, cols, store, npd, ftp, tss) == Ok(c)
    ensures Ok(c.averageSpeed) == ScaleCell(Cell(md, "average_speed"), MphPerMps, store.averageSpeed)
    ensures c.maxSpeed.Some? <==> "max_speed" in cols
    ensures c.maxSpeed.Some? ==> Ok(c.maxSpeed.value) == ScaleCell(Some(c.averageSpeed), MphPerMps, Floats)
    ensures Ok(c.startLat) == GrabCell(Cell(md, "start_latlng"), 0) && Ok(c.startLng) == GrabCell(Cell(md, "start_latlng"), 1)
    ensures Ok(c.endLat) == GrabCell(Cell(md, "end_latlng"), 0) && Ok(c.endLng) == GrabCell(Cell(md, "end_latlng"), 1)
    ensures c.movingSeconds == DictGet(md, "moving_time") && Ok(c.movingTime) == HmsCell(Cell(md, "moving_time"), store.moving)
    ensures c.elapsedSeconds == DictGet(md, "elapsed_time") && Ok(c.elapsedTime) == HmsCell(Cell(md, "elapsed_time"), store.elapsed)
    ensures c.normalizedPower == NormalizedPowerCell(Cell(md, "id"), npd)
    ensures Ok(c.intensityFactor) == IntensityFactorCell(c.normalizedPower, ftp)
    ensures c.tss == tss(c.movingSeconds, c.normalizedPower, c.intensityFactor, ftp)
    ensures Ok(c.startDate) == StartDateCell(Cell(md, "start_date"))
  {
  }

  /** `average_speed` holds the converted speed and `max_speed` that value
      converted once more, so the ride's own maximum never shows. */
  lemma SummarySpeedColumns(md: Dict, cols: set<string>, store: FrameStorage, npd: map<Json, int>, ftp: real, tss: TssFunction, row: seq<Json>)
    requires SummaryRow(md, cols, store, npd, ftp, tss) == Ok(row)
    ensures |row| == 61
    ensures Ok(row[34]) == ScaleCell(Cell(md, "average_speed"), MphPerMps, store.averageSpeed)
    ensures "max_speed" in cols ==> Ok(row[35]) == ScaleCell(Some(row[34]), MphPerMps, Floats)
  {
    var c := ComputeCells(md, cols, store, npd, ftp, tss).value;
    ComputeCellsValues(md, cols, store, npd, ftp, tss, c);
    RowOfSpeedColumns(c, md);
  }

  /** The four coordinates are elements 0 and 1 of `start_latlng` and
      `end_latlng`. */
  lemma SummaryLocationColumns(md: Dict, cols: set<string>, store: FrameStorage, npd: map<Json, int>, ftp: real, tss: TssFunction, row: seq<Json>)
    requires SummaryRow(md, cols, store, npd, ftp, tss) == Ok(row)
    ensures Ok(row[30]) == GrabCell(Cell(md, "start_latlng"), 0) && Ok(row[31]) == GrabCell(Cell(md, "start_latlng"), 1)
    ensures Ok(row[32]) == GrabCell(Cell(md, "end_latlng"), 0) && Ok(row[33]) == GrabCell(Cell(md, "end_latlng"), 1)
  {
    var c := ComputeCells(md, cols, store, npd, ftp, tss).value;
    ComputeCellsValues(md, cols, store, npd, ftp, tss, c);
    RowOfPlaceColumns(c, md);
  }

  /** The `_seconds` columns keep the raw seconds and `moving_time` and
      `elapsed_time` are their `H:M:S` strings; `start_date` is the ride's own
      timestamp. */
  lemma SummaryTimeColumns(md: Dict, cols: set<string>, store: FrameStorage, npd: map<Json, int>, ftp: real, tss: TssFunction, row: seq<Json>)
    requires SummaryRow(md, cols, store, npd, ftp, tss) == Ok(row)
    ensures row[6] == DictGet(md, "moving_time") && Ok(row[5]) == HmsCell(Cell(md, "moving_time"), store.moving)
    ensures row[8] == DictGet(md, "elapsed_time") && Ok(row[7]) == HmsCell(Cell(md, "elapsed_time"), store.elapsed)
    ensures "start_date" in md && md["start_date"].JInt? && row[13] == md["start_date"]
  {
    var c := ComputeCells(md, cols, store, npd, ftp, tss).value;
    ComputeCellsValues(md, cols, store, npd, ftp, tss, c);
    RowOfTimeColumns(c, md);
  }

  /** `normalized_power` is looked up by the ride's id, `intensity_factor` is
      it divided by the FTP, and `tss` is computed from the row's own values. */
  lemma SummaryPowerColumns(md: Dict, cols: set<string>, store: FrameStorage, npd: map<Json, int>, ftp: real, tss: TssFunction, row: seq<Json>)
    requires SummaryRow(md, cols, store, npd, ftp, tss) == Ok(row)
    ensures "id" in md && md["id"] in npd ==> row[58] == JInt(npd[md["id"]])
    ensures !("id" in md && md["id"] in npd) ==> row[58] == JNone
    ensures ftp != 0.0
    ensures row[58].JInt? ==> row[59] == JFloat(row[58].i as real / ftp)
    ensures !row[58].JInt? ==> row[59] == JNone
    ensures row[60] == tss(row[6], row[58], row[59], ftp)
  {
    var c := ComputeCells(md, cols, store, npd, ftp, tss).value;
    ComputeCellsValues(md, cols, store, npd, ftp, tss, c);
    RowOfPowerColumns(c, md);
  }

  /** The id, name and the other columns nothing computes are the ride's own
      values. */
  lemma SummaryCopiedColumns(md: Dict, cols: set<string>, store: FrameStorage, npd: map<Json, int>, ftp: real, tss: TssFunction, row: seq<Json>)
    requires SummaryRow(md, cols, store, npd, ftp, tss) == Ok(row)
    ensures row[0] == DictGet(md, "resource_state") && row[1] == DictGet(md, "id") && row[3] == DictGet(md, "name")
    ensures forall k :: 0 <= k < 61 && ComputedCell(ComputeCells(md, cols, store, npd, ftp, tss).value, MasterColumns[k]).None? ==> row[k] == DictGet(md, MasterColumns[k])
  {
    assert MasterColumns[0] == "resource_state";
    assert MasterColumns[1] == "id";
    assert MasterColumns[3] == "name";
  }

  /** The computed values do not read the ride's own `max_speed`. */
  lemma ComputeCellsIgnoreMaxSpeed(md: Dict, a: Json, b: Json, cols: set<string>, store: FrameStorage, npd: map<Json, int>, ftp: real, tss: TssFunction)
    ensures ComputeCells(md["max_speed" := a], cols, store, npd, ftp, tss) == ComputeCells(md["max_speed" := b], cols, store, npd, ftp, tss)
  {
    ReadCellsIgnoreMaxSpeed(md, a, b);
  }

  /** Every column the summary reads is the same after either replacement. */
  lemma ReadCellsIgnoreMaxSpeed(md: Dict, a: Json, b: Json)
    ensures var ma, mb := md["max_speed" := a], md["max_speed" := b];
            Cell(ma, "average_speed") == Cell(mb, "average_speed") &&
            Cell(ma, "start_latlng") == Cell(mb, "start_latlng") && Cell(ma, "end_latlng") == Cell(mb, "end_latlng") &&
            Cell(ma, "athlete") == Cell(mb, "athlete") && Cell(ma, "map") == Cell(mb, "map") &&
            Cell(ma, "distance") == Cell(mb, "distance") && Cell(ma, "total_elevation_gain") == Cell(mb, "total_elevation_gain") &&
            Cell(ma, "elev_high") == Cell(mb, "elev_high") && Cell(ma, "elev_low") == Cell(mb, "elev_low") &&
            Cell(ma, "moving_time") == Cell(mb, "moving_time") && Cell(ma, "elapsed_time") == Cell(mb, "elapsed_time") &&
            DictGet(ma, "moving_time") == DictGet(mb, "moving_time") && DictGet(ma, "elapsed_time") == DictGet(mb, "elapsed_time") &&
            Cell(ma, "id") == Cell(mb, "id") && Cell(ma, "start_date") == Cell(mb, "start_date")
  {
  }

  /** Replacing the ride's own `max_speed` changes nothing in its row. */
  lemma MaxSpeedIgnored(md: Dict, a: Json, b: Json, cols: set<string>, store: FrameStorage, npd: map<Json, int>, ftp: real, tss: TssFunction)
    requires "max_speed" in cols
    ensures SummaryRow(md["max_speed" := a], cols, store, npd, ftp, tss) == SummaryRow(md["max_speed" := b], cols, store, npd, ftp, tss)
  {
    var ma, mb := md["max_speed" := a], md["max_speed" := b];
    ComputeCellsIgnoreMaxSpeed(md, a, b, cols, store, npd, ftp, tss);
    var cc := ComputeCells(ma, cols, store, npd, ftp, tss);
    if cc.Ok? {
      var c := cc.value;
      assert ComputedCell(c, "max_speed").Some?;
      var ra, rb := SummaryRow(ma, cols, store, npd, ftp, tss).value, SummaryRow(mb, cols, store, npd, ftp, tss).value;
      forall i | 0 <= i < |MasterColumns| ensures ra[i] == rb[i] {
        if ComputedCell(c, MasterColumns[i]).None? {
          assert MasterColumns[i] != "max_speed";
          assert DictGet(ma, MasterColumns[i]) == DictGet(mb, MasterColumns[i]);
        }
      }
      assert ra == rb;
    }
  }

  /** An empty hub has no metadata columns to read, so the summary raises
      `AttributeError` rather than giving an empty frame. */
  lemma SummaryOfEmptyHub(hub: RideHub, ftp: real, rootMeanFourth: seq<real> -> int, tss: TssFunction)
    requires hub.rideList == []
    ensures CreateRideSummaryDataFrame(hub, ftp, rootMeanFourth, tss) == Err(AttributeError)
  {
    assert "id" in ReadColumns;
  }

  /** A ride whose metadata is not a dictionary makes the summary raise
      `AttributeError`. */
  lemma SummaryNeedsDictionaries(hub: RideHub, ftp: real, rootMeanFourth: seq<real> -> int, tss: TssFunction, k: nat)
    requires k < |hub.rideList| && !hub.rideList[k].metadata.JDict?
    ensures CreateRideSummaryDataFrame(hub, ftp, rootMeanFourth, tss) == Err(AttributeError)
  {
  }

  /** `max_speed` is not a column the summary creates, so a frame that has
      every master column already had it. */
  lemma MaxSpeedMustBeRead(cols: set<string>)
    requires HasMasterColumns(cols)
    ensures "max_speed" in cols
  {
    assert MasterColumns[35] == "max_speed";
  }

  /** How a summary that succeeds was put together. */
  lemma SummaryFrameParts(hub: RideHub, ftp: real, rootMeanFourth: seq<real> -> int, tss: TssFunction, rows: seq<seq<Json>>)
    requires CreateRideSummaryDataFrame(hub, ftp, rootMeanFourth, tss) == Ok(rows)
    ensures Metadatas(hub.rideList).Ok? && NormalizedPowerDict(hub.rideList, rootMeanFourth).Ok?
    ensures var mds := Metadatas(hub.rideList).value;
            var cols := UnionKeys(mds);
            var rowsOf := MapResults(mds, RowMaker(cols, FrameStorageOf(mds), NormalizedPowerDict(hub.rideList, rootMeanFourth).value, ftp, tss));
            rowsOf.Ok? && rows == Distinct(SortBy(rowsOf.value, StartKey, true)) &&
            HasMasterColumns(cols)
  {
  }

  /** Rows computed one per item, then sorted newest first with repeats
      dropped: the rows are in order, none appears twice, and they are
      exactly the items' rows. */
  lemma {:induction false} FrameOfRows<A>(xs: seq<A>, f: A -> Result<seq<Json>>, rows: seq<seq<Json>>)
    requires MapResults(xs, f).Ok?
    requires rows == Distinct(SortBy(MapResults(xs, f).value, StartKey, true))
    ensures SortedBy(rows, StartKey, true)
    ensures forall i, j :: 0 <= i < j < |rows| ==> rows[i] != rows[j]
    ensures forall row :: row in rows <==> exists k :: 0 <= k < |xs| && f(xs[k]) == Ok(row)
  {
    var all := MapResults(xs, f).value;
    SortThenDistinct(all, StartKey, true);
    forall row ensures row in rows <==> exists k :: 0 <= k < |xs| && f(xs[k]) == Ok(row) {
      if row in all {
        var k :| 0 <= k < |all| && all[k] == row;
        assert f(xs[k]) == Ok(row);
      }
    }
  }

  /** The summary frame: every row has the `master_column_list` columns, the
      rows are ordered by start date, newest first, no row appears twice,
      and the rows are exactly the rides' summary rows. Every ride's frame
      has a `max_speed` column, so the speed quirk applies to every row. */
  lemma SummaryFrame(hub: RideHub, ftp: real, rootMeanFourth: seq<real> -> int, tss: TssFunction, rows: seq<seq<Json>>)
    requires CreateRideSummaryDataFrame(hub, ftp, rootMeanFourth, tss) == Ok(rows)
    ensures forall k :: 0 <= k < |hub.rideList| ==> hub.rideList[k].metadata.JDict?
    ensures "max_speed" in UnionKeys(Metadatas(hub.rideList).value)
    ensures forall i :: 0 <= i < |rows| ==> |rows[i]| == |MasterColumns|
    ensures SortedBy(rows, StartKey, true)
    ensures forall i, j :: 0 <= i < j < |rows| ==> rows[i] != rows[j]
    ensures var mds := Metadatas(hub.rideList).value;
            var rowOf := RowMaker(UnionKeys(mds), FrameStorageOf(mds), NormalizedPowerDict(hub.rideList, rootMeanFourth).value, ftp, tss);
            forall row :: row in rows <==> exists k :: 0 <= k < |mds| && rowOf(mds[k]) == Ok(row)
  {
    SummaryFrameParts(hub, ftp, rootMeanFourth, tss, rows);
    var mds := Metadatas(hub.rideList).value;
    var cols := UnionKeys(mds);
    var f := RowMaker(cols, FrameStorageOf(mds), NormalizedPowerDict(hub.rideList, rootMeanFourth).value, ftp, tss);
    MaxSpeedMustBeRead(cols);
    FrameOfRows(mds, f, rows);
    forall i | 0 <= i < |rows| ensures |rows[i]| == |MasterColumns| {
      assert rows[i] in rows;
      var k :| 0 <= k < |mds| && f(mds[k]) == Ok(rows[i]);
      RowMakerWidth(cols, FrameStorageOf(mds), NormalizedPowerDict(hub.rideList, rootMeanFourth).value, ftp, tss, mds[k]);
    }
  }

  // ----- the metrics frame of one ride -----

  /** `individual_ride_fields_outdoors`. */
  const OutdoorFields: seq<string> := [
    "temp", "watts", "moving", "latitude", "longitude", "velocity_smooth", "grade_smooth", "cadence",
    "distance", "heartrate", "altitude", "time"
  ]

  /** `individual_ride_fields_indoors`: no coordinates, but the heart-rate
      zone. */
  const IndoorFields: seq<string> := [
    "temp", "watts", "moving", "velocity_smooth", "grade_smooth", "cadence", "distance", "heartrate",
    "hr_zone", "altitude", "time"
  ]

  /** A named column of a frame. */
  datatype Column = Column(name: string, values: seq<Json>)

  /** `metrics_dict` values that pandas turns into a frame with no named
      column: `None` and an empty list give the empty frame, and a list of
      scalars the single column `0`. */
  predicate UnnamedFrame(metrics: Json)
  {
    metrics.JNone? ||
    (metrics.JList? && forall k :: 0 <= k < |metrics.items| ==> !metrics.items[k].JDict? && !metrics.items[k].JList?)
  }

  /** `pd.DataFrame(metrics_dict)`, keeping its string-named columns: one
      column per key for a dictionary of equally long sample lists, and
      none for an `UnnamedFrame`. Any other dictionary, and a bare scalar
      or string, raises `ValueError`. */
  function StreamColumns(metrics: Json): (r: Result<map<string, seq<Json>>>)
    ensures r.Ok? <==> UnnamedFrame(metrics) ||
                       (metrics.JDict? &&
                        (forall k :: k in metrics.fields ==> metrics.fields[k].JList?) &&
                        (forall k, l :: k in metrics.fields && l in metrics.fields ==>
                                          |metrics.fields[k].items| == |metrics.fields[l].items|))
    ensures r.Err? ==> r.error == ValueError
    ensures r.Ok? && UnnamedFrame(metrics) ==> r.value == map[]
    ensures r.Ok? && metrics.JDict? ==> r.value.Keys == metrics.fields.Keys &&
                                        forall k :: k in r.value ==> r.value[k] == metrics.fields[k].items
  {
    if UnnamedFrame(metrics) then Ok(map[])
    else if metrics.JDict? &&
       (forall k :: k in metrics.fields ==> metrics.fields[k].JList?) &&
       (forall k, l :: k in metrics.fields && l in metrics.fields ==>
                         |metrics.fields[k].items| == |metrics.fields[l].items|)
    then Ok(map k | k in metrics.fields :: metrics.fields[k].items)
    else Err(ValueError)
  }

  /** `identify_heart_rate_zone` applied to one sample of a stream stored
      as `st`: a number gets its zone, NaN fails every comparison and gets
      zone 1, and comparing anything else with a number, `None` kept in an
      object column included, raises `TypeError`. */
  function HeartRateZoneCell(hr: Json, lt: int, st: Storage): (r: Result<Json>)
    ensures NumberOf(hr).Some? ==> r == Ok(JInt(IdentifyHeartRateZone(NumberOf(hr).value, lt)))
    ensures hr.JNone? ==> r == if st == Floats then Ok(JInt(1)) else Err(TypeError)
    ensures r.Ok? ==> r.value.JInt? && 1 <= r.value.i <= 5
    ensures r.Err? <==> NumberOf(hr).None? && (!hr.JNone? || st.Objects?)
    ensures r.Err? ==> r.error == TypeError
  {
    if hr.JNone? then (assert NumberOf(hr).None?; if st == Floats then Ok(JInt(1)) else Err(TypeError))
    else match NumberOf(hr)
      case Some(x) => Ok(JInt(IdentifyHeartRateZone(x, lt)))
      case None => Err(TypeError)
  }

  /** A column of nothing but `None` keeps `None` as an object, so the
      conversion raises `TypeError`; beside an integer `None` is NaN and
      converts to NaN, or to zone 1. */
  lemma NoneStorageExamples(lt: int)
    ensures var mds := [map["elev_high" := JNone]];
            ColumnStorage(mds, "elev_high") == Objects &&
            ScaleCell(Cell(mds[0], "elev_high"), FeetPerMeter, ColumnStorage(mds, "elev_high")) == Err(TypeError)
    ensures var mds := [map["elev_high" := JNone], map["elev_high" := JInt(100)]];
            ColumnStorage(mds, "elev_high") == Floats &&
            ScaleCell(Cell(mds[0], "elev_high"), FeetPerMeter, ColumnStorage(mds, "elev_high")) == Ok(JNone)
    ensures StreamStorage([JNone, JNone]) == Objects && HeartRateZoneCell(JNone, lt, StreamStorage([JNone, JNone])) == Err(TypeError)
    ensures StreamStorage([JNone, JInt(150)]) == Floats && HeartRateZoneCell(JNone, lt, StreamStorage([JNone, JInt(150)])) == Ok(JInt(1))
  {
    var mds: seq<Dict> := [map["elev_high" := JNone]];
    assert !MakesFloats(mds, "elev_high", 0);
    var mds2: seq<Dict> := [map["elev_high" := JNone], map["elev_high" := JInt(100)]];
    assert "elev_high" in mds2[1] && mds2[1]["elev_high"].JInt?;
    assert MakesFloats(mds2, "elev_high", 0);
    var xs := [JNone, JInt(150)];
    assert xs[0].JNone? && xs[1].JInt?;
  }

  /** `output_df[fields]`: the columns in the order asked for, or `KeyError`
      when the frame lacks one. */
  function SelectColumns(frame: map<string, seq<Json>>, fields: seq<string>): (r: Result<seq<Column>>)
    ensures r.Ok? <==> forall i :: 0 <= i < |fields| ==> fields[i] in frame
    ensures r.Err? ==> r.error == KeyError
    ensures r.Ok? ==> |r.value| == |fields| &&
                      forall i :: 0 <= i < |fields| ==> r.value[i] == Column(fields[i], frame[fields[i]])
  {
    if forall i :: 0 <= i < |fields| ==> fields[i] in frame
    then Ok(seq(|fields|, i requires 0 <= i < |fields| => Column(fields[i], frame[fields[i]])))
    else Err(KeyError)
  }

  /** Converts every sample of a column: `Series.map`. */
  function MapColumn(frame: map<string, seq<Json>>, name: string, f: Json -> Result<Json>): (r: Result<seq<Json>>)
    ensures name !in frame ==> r == Err(AttributeError)
    ensures name in frame ==> r == MapResults(frame[name], f)
  {
    if name !in frame then Err(AttributeError) else MapResults(frame[name], f)
  }

  /** The storage of a stream of the frame; a missing one is never mapped. */
  function StoredIn(raw: map<string, seq<Json>>, name: string): Storage
  {
    if name in raw then StreamStorage(raw[name]) else Objects
  }

  function FeetCellOf(st: Storage): Json -> Result<Json> { j => ScaleCell(Some(j), FeetPerMeter, st) }
  function MilesCellOf(st: Storage): Json -> Result<Json> { j => ScaleCell(Some(j), MilesPerMeter, st) }
  function ZoneCellOf(lt: int, st: Storage): Json -> Result<Json> { j => HeartRateZoneCell(j, lt, st) }
  function GrabOf(index: nat): Json -> Result<Json> { j => GrabElementOfListIfExists(j, index) }

  /** The streams with speed, distance and heart-rate zone converted, for
      streams whose three conversions succeed. */
  function MetricsBase(raw: map<string, seq<Json>>, lt: int): (r: map<string, seq<Json>>)
    requires MapColumn(raw, "velocity_smooth", FeetCellOf(StoredIn(raw, "velocity_smooth"))).Ok? && MapColumn(raw, "distance", MilesCellOf(StoredIn(raw, "distance"))).Ok?
    requires MapColumn(raw, "heartrate", ZoneCellOf(lt, StoredIn(raw, "heartrate"))).Ok?
    ensures r.Keys == raw.Keys + {"hr_zone"}
    ensures forall k :: k in raw && k != "velocity_smooth" && k != "distance" && k != "hr_zone" ==> r[k] == raw[k]
    ensures r["velocity_smooth"] == MapColumn(raw, "velocity_smooth", FeetCellOf(StoredIn(raw, "velocity_smooth"))).value
    ensures r["distance"] == MapColumn(raw, "distance", MilesCellOf(StoredIn(raw, "distance"))).value
    ensures r["hr_zone"] == MapColumn(raw, "heartrate", ZoneCellOf(lt, StoredIn(raw, "heartrate"))).value
  {
    raw["velocity_smooth" := MapColumn(raw, "velocity_smooth", FeetCellOf(StoredIn(raw, "velocity_smooth"))).value]
       ["distance" := MapColumn(raw, "distance", MilesCellOf(StoredIn(raw, "distance"))).value]
       ["hr_zone" := MapColumn(raw, "heartrate", ZoneCellOf(lt, StoredIn(raw, "heartrate"))).value]
  }

  /** The frame of a ride's streams once `create_individual_ride_metrics_dataframe`
      has converted them, before it picks the columns: speed in feet, distance
      in miles, a heart-rate zone per sample and, for an outdoor ride, the
      coordinates. A missing stream raises `AttributeError`. */
  function MetricsFrame(metrics: Json, lt: int): Result<map<string, seq<Json>>>
  {
    var raw :- StreamColumns(metrics);
    var velocity :- MapColumn(raw, "velocity_smooth", FeetCellOf(StoredIn(raw, "velocity_smooth")));
    var distance :- MapColumn(raw, "distance", MilesCellOf(StoredIn(raw, "distance")));
    var zones :- MapColumn(raw, "heartrate", ZoneCellOf(lt, StoredIn(raw, "heartrate")));
    AddCoordinates(MetricsBase(raw, lt))
  }

  /** The coordinate columns of an outdoor ride, added to the converted
      frame; an indoor ride's frame is left as it is. */
  function AddCoordinates(base: map<string, seq<Json>>): (r: Result<map<string, seq<Json>>>)
    ensures "latlng" !in base ==> r == Ok(base)
    ensures r.Ok? ==> r.value.Keys == base.Keys + (if "latlng" in base then {"latitude", "longitude"} else {})
    ensures r.Ok? ==> forall k :: k in base && k != "latitude" && k != "longitude" ==> r.value[k] == base[k]
    ensures r.Ok? && "latlng" in base ==>
              MapColumn(base, "latlng", GrabOf(0)).Ok? && r.value["latitude"] == MapColumn(base, "latlng", GrabOf(0)).value &&
              MapColumn(base, "latlng", GrabOf(1)).Ok? && r.value["longitude"] == MapColumn(base, "latlng", GrabOf(1)).value
    ensures r.Ok? && "latlng" in base ==> |r.value["latitude"]| == |base["latlng"]| && |r.value["longitude"]| == |base["latlng"]|
  {
    if "latlng" in base then
      var latitude :- MapColumn(base, "latlng", GrabOf(0));
      var longitude :- MapColumn(base, "latlng", GrabOf(1));
      Ok(base["latitude" := latitude]["longitude" := longitude])
    else Ok(base)
  }

  /** `create_individual_ride_metrics_dataframe`, over the rides of `hub`;
      `lt` is the configured `CURRENT_LACTATE_THRESHOLD`. An id no ride has
      raises `ValueError` before anything else; an outdoor ride, one with a
      `latlng` stream, gets the outdoor columns and any other the indoor
      ones. */
  function CreateIndividualRideMetricsDataFrame(hub: RideHub, rideId: Json, lt: int): Result<seq<Column>>
    reads hub
  {
    if hub.GetRide(rideId).None? then Err(ValueError)
    else
      var frame :- MetricsFrame(hub.GetItem(rideId).value.metricsDict, lt);
      SelectColumns(frame, if "latlng" in frame then OutdoorFields else IndoorFields)
  }

  /** Asking for a ride the hub does not hold raises `ValueError`. */
  lemma MetricsOfAbsentRide(hub: RideHub, rideId: Json, lt: int)
    requires !hub.Contains(rideId)
    ensures CreateIndividualRideMetricsDataFrame(hub, rideId, lt) == Err(ValueError)
  {
  }

  /** Streams that pandas cannot make a frame of raise `ValueError`; a
      frame without a speed, distance or heart-rate column, such as the one
      `None` or a list of scalars gives, raises `AttributeError`, checked
      in that order. */
  lemma MetricsFrameErrors(metrics: Json, lt: int)
    ensures StreamColumns(metrics).Err? ==> MetricsFrame(metrics, lt) == Err(ValueError)
    ensures StreamColumns(metrics).Ok? && (!metrics.JDict? || "velocity_smooth" !in metrics.fields) ==> MetricsFrame(metrics, lt) == Err(AttributeError)
    ensures UnnamedFrame(metrics) ==> MetricsFrame(metrics, lt) == Err(AttributeError)
    ensures (StreamColumns(metrics).Ok? && metrics.JDict? && "velocity_smooth" in metrics.fields && "distance" !in metrics.fields &&
             MapResults(metrics.fields["velocity_smooth"].items, FeetCellOf(StreamStorage(metrics.fields["velocity_smooth"].items))).Ok?) ==>
              MetricsFrame(metrics, lt) == Err(AttributeError)
    ensures (StreamColumns(metrics).Ok? && metrics.JDict? && "velocity_smooth" in metrics.fields && "distance" in metrics.fields &&
             "heartrate" !in metrics.fields &&
             MapResults(metrics.fields["velocity_smooth"].items, FeetCellOf(StreamStorage(metrics.fields["velocity_smooth"].items))).Ok? &&
             MapResults(metrics.fields["distance"].items, MilesCellOf(StreamStorage(metrics.fields["distance"].items))).Ok?) ==>
              MetricsFrame(metrics, lt) == Err(AttributeError)
  {
  }

  /** `None`, an empty list and a list of scalars reach the first column
      access and raise `AttributeError` there; a number or a string is not
      a frame at all and raises `ValueError`. */
  lemma UnnamedFrameExamples(lt: int)
    ensures MetricsFrame(JNone, lt) == Err(AttributeError)
    ensures MetricsFrame(JList([]), lt) == Err(AttributeError)
    ensures MetricsFrame(JList([JInt(1), JNone]), lt) == Err(AttributeError)
    ensures MetricsFrame(JInt(1), lt) == Err(ValueError) && MetricsFrame(JStr("x"), lt) == Err(ValueError)
  {
    assert UnnamedFrame(JList([JInt(1), JNone]));
  }

  /** What the converted frame holds: the streams it was given and the
      three new columns, one entry per sample in every column, and the
      coordinate columns exactly for an outdoor ride. */
  lemma MetricsFrameShape(metrics: Json, lt: int, frame: map<string, seq<Json>>)
    requires MetricsFrame(metrics, lt) == Ok(frame)
    ensures metrics.JDict? && "velocity_smooth" in metrics.fields && "distance" in metrics.fields && "heartrate" in metrics.fields
    ensures var n := |metrics.fields["heartrate"].items|;
            forall c :: c in frame ==> |frame[c]| == n
  {
    var raw := StreamColumns(metrics).value;
    var n := |metrics.fields["heartrate"].items|;
    assert forall c :: c in raw ==> |raw[c]| == n;
    ConvertedLengths(raw, lt, n);
  }

  /** Converting streams of one length keeps every column at that length. */
  lemma ConvertedLengths(raw: map<string, seq<Json>>, lt: int, n: nat)
    requires forall c :: c in raw ==> |raw[c]| == n
    requires MapColumn(raw, "velocity_smooth", FeetCellOf(StoredIn(raw, "velocity_smooth"))).Ok? && MapColumn(raw, "distance", MilesCellOf(StoredIn(raw, "distance"))).Ok?
    requires MapColumn(raw, "heartrate", ZoneCellOf(lt, StoredIn(raw, "heartrate"))).Ok?
    requires AddCoordinates(MetricsBase(raw, lt)).Ok?
    ensures var frame := AddCoordinates(MetricsBase(raw, lt)).value;
            forall c :: c in frame ==> |frame[c]| == n
  {
    var base := MetricsBase(raw, lt);
    BaseLengths(raw, lt, n);
    var frame := AddCoordinates(base).value;
    if "latlng" in base {
      forall c | c in frame ensures |frame[c]| == n {
        if c != "latitude" && c != "longitude" {
          assert frame[c] == base[c];
        }
      }
    } else {
      assert frame == base;
    }
  }

  /** The three conversions keep the streams' common length. */
  lemma BaseLengths(raw: map<string, seq<Json>>, lt: int, n: nat)
    requires forall c :: c in raw ==> |raw[c]| == n
    requires MapColumn(raw, "velocity_smooth", FeetCellOf(StoredIn(raw, "velocity_smooth"))).Ok? && MapColumn(raw, "distance", MilesCellOf(StoredIn(raw, "distance"))).Ok?
    requires MapColumn(raw, "heartrate", ZoneCellOf(lt, StoredIn(raw, "heartrate"))).Ok?
    ensures var base := MetricsBase(raw, lt);
            forall c :: c in base ==> |base[c]| == n
  {
    var base := MetricsBase(raw, lt);
    forall c | c in base ensures |base[c]| == n {
      if c != "velocity_smooth" && c != "distance" && c != "hr_zone" {
        assert base[c] == raw[c];
      }
    }
  }

  /** The streams the conversion does not overwrite are kept as they were,
      and the three converted columns are there. */
  lemma MetricsFrameKeeps(metrics: Json, lt: int, frame: map<string, seq<Json>>)
    requires MetricsFrame(metrics, lt) == Ok(frame)
    ensures metrics.JDict?
    ensures forall k :: k in metrics.fields && k !in {"velocity_smooth", "distance", "hr_zone", "latitude", "longitude"} ==>
              k in frame && frame[k] == metrics.fields[k].items
    ensures "velocity_smooth" in frame && "distance" in frame && "hr_zone" in frame
    ensures "latlng" in frame <==> "latlng" in metrics.fields
  {
    var raw := StreamColumns(metrics).value;
    assert AddCoordinates(MetricsBase(raw, lt)) == Ok(frame);
    ConvertedKeeps(raw, lt);
    forall k | k in metrics.fields && k !in {"velocity_smooth", "distance", "hr_zone", "latitude", "longitude"}
      ensures k in frame && frame[k] == metrics.fields[k].items
    {
      assert k in raw && raw[k] == metrics.fields[k].items;
    }
  }

  /** Converting keeps every stream it does not overwrite, adds the three
      converted columns, and keeps `latlng` exactly when it was there. */
  lemma ConvertedKeeps(raw: map<string, seq<Json>>, lt: int)
    requires MapColumn(raw, "velocity_smooth", FeetCellOf(StoredIn(raw, "velocity_smooth"))).Ok? && MapColumn(raw, "distance", MilesCellOf(StoredIn(raw, "distance"))).Ok?
    requires MapColumn(raw, "heartrate", ZoneCellOf(lt, StoredIn(raw, "heartrate"))).Ok?
    requires AddCoordinates(MetricsBase(raw, lt)).Ok?
    ensures var frame := AddCoordinates(MetricsBase(raw, lt)).value;
            (forall k :: k in raw && k !in {"velocity_smooth", "distance", "hr_zone", "latitude", "longitude"} ==>
               k in frame && frame[k] == raw[k]) &&
            "velocity_smooth" in frame && "distance" in frame && "hr_zone" in frame &&
            ("latlng" in frame <==> "latlng" in raw)
  {
    var base := MetricsBase(raw, lt);
    var frame := AddCoordinates(base).value;
    forall k | k in raw && k !in {"velocity_smooth", "distance", "hr_zone", "latitude", "longitude"}
      ensures k in frame && frame[k] == raw[k]
    {
      assert base[k] == raw[k];
      assert frame[k] == base[k];
    }
  }

  /** The converted columns are the converted streams, whether or not
      coordinates are added after them. */
  lemma MetricsFrameBase(metrics: Json, lt: int, frame: map<string, seq<Json>>)
    requires MetricsFrame(metrics, lt) == Ok(frame)
    ensures StreamColumns(metrics).Ok?
    ensures var raw := StreamColumns(metrics).value;
            MapColumn(raw, "velocity_smooth", FeetCellOf(StoredIn(raw, "velocity_smooth"))).Ok? && MapColumn(raw, "distance", MilesCellOf(StoredIn(raw, "distance"))).Ok? &&
            MapColumn(raw, "heartrate", ZoneCellOf(lt, StoredIn(raw, "heartrate"))).Ok? &&
            "velocity_smooth" in frame && frame["velocity_smooth"] == MapColumn(raw, "velocity_smooth", FeetCellOf(StoredIn(raw, "velocity_smooth"))).value &&
            "distance" in frame && frame["distance"] == MapColumn(raw, "distance", MilesCellOf(StoredIn(raw, "distance"))).value &&
            "hr_zone" in frame && frame["hr_zone"] == MapColumn(raw, "heartrate", ZoneCellOf(lt, StoredIn(raw, "heartrate"))).value
  {
    var raw := StreamColumns(metrics).value;
    assert AddCoordinates(MetricsBase(raw, lt)) == Ok(frame);
  }

  /** The speed in feet and the distance in miles, sample by sample. */
  lemma MetricsFrameConversions(metrics: Json, lt: int, frame: map<string, seq<Json>>)
    requires MetricsFrame(metrics, lt) == Ok(frame)
    ensures metrics.JDict? && "velocity_smooth" in metrics.fields && "distance" in metrics.fields
    ensures "velocity_smooth" in frame && "distance" in frame
    ensures var v := metrics.fields["velocity_smooth"].items;
            |frame["velocity_smooth"]| == |v| &&
            forall i :: 0 <= i < |v| ==> Ok(frame["velocity_smooth"][i]) == ScaleCell(Some(v[i]), FeetPerMeter, StreamStorage(v))
    ensures var d := metrics.fields["distance"].items;
            |frame["distance"]| == |d| &&
            forall i :: 0 <= i < |d| ==> Ok(frame["distance"][i]) == ScaleCell(Some(d[i]), MilesPerMeter, StreamStorage(d))
  {
    MetricsFrameBase(metrics, lt, frame);
  }

  /** A zone from 1 to 5 for every heart-rate sample. */
  lemma MetricsFrameZones(metrics: Json, lt: int, frame: map<string, seq<Json>>)
    requires MetricsFrame(metrics, lt) == Ok(frame)
    ensures metrics.JDict? && "heartrate" in metrics.fields && "hr_zone" in frame
    ensures var h := metrics.fields["heartrate"].items;
            |frame["hr_zone"]| == |h| &&
            forall i :: 0 <= i < |h| ==> Ok(frame["hr_zone"][i]) == HeartRateZoneCell(h[i], lt, StreamStorage(h)) &&
                                          frame["hr_zone"][i].JInt? && 1 <= frame["hr_zone"][i].i <= 5
  {
    MetricsFrameBase(metrics, lt, frame);
    var h := metrics.fields["heartrate"].items;
    var zones := frame["hr_zone"];
    forall i | 0 <= i < |h| ensures Ok(zones[i]) == HeartRateZoneCell(h[i], lt, StreamStorage(h)) {
      assert ZoneCellOf(lt, StreamStorage(h))(h[i]) == HeartRateZoneCell(h[i], lt, StreamStorage(h));
    }
  }

  /** For an outdoor ride, the two coordinates of every `latlng` sample. */
  lemma MetricsFrameCoordinates(metrics: Json, lt: int, frame: map<string, seq<Json>>)
    requires MetricsFrame(metrics, lt) == Ok(frame)
    requires metrics.JDict? && "latlng" in metrics.fields
    ensures var g := metrics.fields["latlng"].items;
            "latitude" in frame && "longitude" in frame &&
            |frame["latitude"]| == |g| && |frame["longitude"]| == |g| &&
            forall i :: 0 <= i < |g| ==> Ok(frame["latitude"][i]) == GrabElementOfListIfExists(g[i], 0) &&
                                          Ok(frame["longitude"][i]) == GrabElementOfListIfExists(g[i], 1)
  {
    var raw := StreamColumns(metrics).value;
    var g := metrics.fields["latlng"].items;
    var base := MetricsBase(raw, lt);
    assert AddCoordinates(base) == Ok(frame) && base["latlng"] == g;
    var latitude := MapColumn(base, "latlng", GrabOf(0)).value;
    var longitude := MapColumn(base, "latlng", GrabOf(1)).value;
    assert frame["latitude"] == latitude && frame["longitude"] == longitude;
    forall i | 0 <= i < |g|
      ensures Ok(latitude[i]) == GrabElementOfListIfExists(g[i], 0)
      ensures Ok(longitude[i]) == GrabElementOfListIfExists(g[i], 1)
    {
      assert GrabOf(0)(g[i]) == GrabElementOfListIfExists(g[i], 0);
      assert GrabOf(1)(g[i]) == GrabElementOfListIfExists(g[i], 1);
    }
  }

  /** The frame returned for a ride: the outdoor columns when it has a
      `latlng` stream and the indoor ones otherwise, each column named as
      asked and holding the converted samples. */
  lemma MetricsColumnsChosen(hub: RideHub, rideId: Json, lt: int, columns: seq<Column>)
    requires CreateIndividualRideMetricsDataFrame(hub, rideId, lt) == Ok(columns)
    ensures hub.Contains(rideId)
    ensures var metrics := hub.GetItem(rideId).value.metricsDict;
            var fields := if metrics.JDict? && "latlng" in metrics.fields then OutdoorFields else IndoorFields;
            MetricsFrame(metrics, lt).Ok? && |columns| == |fields| &&
            forall i :: 0 <= i < |fields| ==> columns[i] == Column(fields[i], MetricsFrame(metrics, lt).value[fields[i]])
  {
    var metrics := hub.GetItem(rideId).value.metricsDict;
    var frame := MetricsFrame(metrics, lt).value;
    MetricsFrameKeeps(metrics, lt, frame);
    var fields := if "latlng" in frame then OutdoorFields else IndoorFields;
    assert SelectColumns(frame, fields) == Ok(columns);
  }

  // ----- the daily training-stress series -----

  const SecondsPerDay: int := 86400

  /** How far back the daily series looks: 43 days, one more than is shown. */
  const LookbackDays: int := 43

  /** A kept ride's start, in seconds since the epoch, and its stress score. */
  datatype DatedTss = DatedTss(start: int, tss: real)

  /** The calendar day of a time (floor division, so times before the epoch
      fall on negative days). */
  function Day(t: int): (d: int)
    ensures d * SecondsPerDay <= t < (d + 1) * SecondsPerDay
  {
    t / SecondsPerDay
  }

  /** `summary_df.loc[summary_df.start_date >= cutoff]`: the rows starting at
      or after `cutoff`, in order. */
  function RowsSince(rows: seq<seq<Json>>, cutoff: int): (r: seq<seq<Json>>)
    ensures |r| <= |rows|
    ensures forall row :: row in r <==> row in rows && StartKey(row) >= cutoff
    ensures r == [] <==> forall row :: row in rows ==> StartKey(row) < cutoff
  {
    if rows == [] then []
    else
      var rest := RowsSince(rows[1..], cutoff);
      assert forall row :: row in rows <==> row == rows[0] || row in rows[1..] by {
        assert rows == [rows[0]] + rows[1..];
      }
      if StartKey(rows[0]) >= cutoff then [rows[0]] + rest else rest
  }

  /** A row's start and stress score. The sum skips NaN, so a missing score
      counts as 0; a score that is not a number cannot be summed. */
  function RowRecord(row: seq<Json>): (r: Result<DatedTss>)
    ensures r.Ok? ==> r.value.start == StartKey(row)
    ensures |row| <= 60 ==> r == Err(KeyError)
    ensures |row| > 60 && row[60].JNone? ==> r == Ok(DatedTss(StartKey(row), 0.0))
    ensures |row| > 60 && NumberOf(row[60]).Some? ==> r == Ok(DatedTss(StartKey(row), NumberOf(row[60]).value))
    ensures r.Err? ==> |row| <= 60 || (!row[60].JNone? && NumberOf(row[60]).None?)
  {
    if |row| <= 60 then Err(KeyError)
    else if row[60].JNone? then Ok(DatedTss(StartKey(row), 0.0))
    else match NumberOf(row[60])
      case Some(x) => Ok(DatedTss(StartKey(row), x))
      case None => Err(TypeError)
  }

  /** The stress of all the rides. */
  function TotalTss(recs: seq<DatedTss>): real
  {
    if recs == [] then 0.0 else recs[0].tss + TotalTss(recs[1..])
  }

  /** The stress of the rides on days `lo` up to, not including, `hi`. */
  function TotalIn(recs: seq<DatedTss>, lo: int, hi: int): real
  {
    if recs == [] then 0.0
    else (if lo <= Day(recs[0].start) < hi then recs[0].tss else 0.0) + TotalIn(recs[1..], lo, hi)
  }

  /** `groupby(day).tss.sum()` for one day. */
  function DayTotal(recs: seq<DatedTss>, day: int): real
  {
    TotalIn(recs, day, day + 1)
  }

  /** `reindex(date_range(first, ...), fill_value=0)`: one total per day for
      `count` days from `first`, 0 on a day without rides. */
  function DaySeries(recs: seq<DatedTss>, first: int, count: nat): (r: seq<real>)
    ensures |r| == count
    ensures forall i :: 0 <= i < count ==> r[i] == DayTotal(recs, first + i)
    decreases count
  {
    if count == 0 then []
    else [DayTotal(recs, first)] + DaySeries(recs, first + 1, count - 1)
  }

  /** The earliest day of a ride. */
  function MinDay(recs: seq<DatedTss>): (d: int)
    requires recs != []
    ensures forall k :: 0 <= k < |recs| ==> d <= Day(recs[k].start)
    ensures exists k :: 0 <= k < |recs| && d == Day(recs[k].start)
  {
    if |recs| == 1 then Day(recs[0].start)
    else
      var rest := MinDay(recs[1..]);
      assert forall k :: 1 <= k < |recs| ==> recs[k] == recs[1..][k - 1];
      if Day(recs[0].start) <= rest then Day(recs[0].start) else rest
  }

  /** The latest day of a ride. */
  function MaxDay(recs: seq<DatedTss>): (d: int)
    requires recs != []
    ensures forall k :: 0 <= k < |recs| ==> Day(recs[k].start) <= d
    ensures exists k :: 0 <= k < |recs| && d == Day(recs[k].start)
  {
    if |recs| == 1 then Day(recs[0].start)
    else
      var rest := MaxDay(recs[1..]);
      assert forall k :: 1 <= k < |recs| ==> recs[k] == recs[1..][k - 1];
      if Day(recs[0].start) >= rest then Day(recs[0].start) else rest
  }

  /** The records of the summary rows of the last 43 days, counted back from
      `now`. */
  function RecentRecords(rows: seq<seq<Json>>, now: int): Result<seq<DatedTss>>
  {
    MapResults(RowsSince(rows, now - LookbackDays * SecondsPerDay), RowRecord)
  }

  /** `get_daily_tss_score_array` of `modules/data_functions.py` over the
      summary rows: one total per day from the earliest to the latest kept
      ride. With no ride in the last 43 days the date range has no ends and
      raises `ValueError`. */
  function DailyTssToLatestRide(rows: seq<seq<Json>>, now: int): Result<seq<real>>
  {
    var recs :- RecentRecords(rows, now);
    SeriesToLatestRide(recs)
  }

  /** The days from the earliest to the latest ride. */
  function SeriesToLatestRide(recs: seq<DatedTss>): Result<seq<real>>
  {
    if recs == [] then Err(ValueError)
    else Ok(DaySeries(recs, MinDay(recs), MaxDay(recs) - MinDay(recs) + 1))
  }

  /** The same, over the rides of `hub`; `now` is the time of the call. */
  function GetDailyTssScoreArray(hub: RideHub, now: int, ftp: real, rootMeanFourth: seq<real> -> int, tss: TssFunction): Result<seq<real>>
    reads hub
  {
    var rows :- CreateRideSummaryDataFrame(hub, ftp, rootMeanFourth, tss);
    DailyTssToLatestRide(rows, now)
  }

  /** Splitting a range of days splits its total. */
  lemma {:induction false} TotalInSplit(recs: seq<DatedTss>, lo: int, mid: int, hi: int)
    requires lo <= mid <= hi
    ensures TotalIn(recs, lo, hi) == TotalIn(recs, lo, mid) + TotalIn(recs, mid, hi)
  {
    if recs != [] {
      TotalInSplit(recs[1..], lo, mid, hi);
    }
  }

  /** A range holding every ride's day holds the whole stress. */
  lemma {:induction false} TotalInAll(recs: seq<DatedTss>, lo: int, hi: int)
    requires forall k :: 0 <= k < |recs| ==> lo <= Day(recs[k].start) < hi
    ensures TotalIn(recs, lo, hi) == TotalTss(recs)
  {
    if recs != [] {
      assert forall k :: 0 <= k < |recs[1..]| ==> recs[1..][k] == recs[k + 1];
      TotalInAll(recs[1..], lo, hi);
    }
  }

  /** The days of a series add up to the stress of the rides on those days. */
  lemma {:induction false} DaySeriesSum(recs: seq<DatedTss>, first: int, count: nat)
    ensures UniversalFunctions.Sum(DaySeries(recs, first, count)) == TotalIn(recs, first, first + count)
    decreases count
  {
    if count == 0 {
      TotalInSplit(recs, first, first, first);
    } else {
      DaySeriesSum(recs, first + 1, count - 1);
      TotalInSplit(recs, first, first + 1, first + count);
    }
  }

  /** A day without rides totals 0. */
  lemma {:induction false} EmptyDayIsZero(recs: seq<DatedTss>, day: int)
    requires forall k :: 0 <= k < |recs| ==> Day(recs[k].start) != day
    ensures DayTotal(recs, day) == 0.0
  {
    if recs != [] {
      assert forall k :: 0 <= k < |recs[1..]| ==> recs[1..][k] == recs[k + 1];
      EmptyDayIsZero(recs[1..], day);
    }
  }

  /** A series from the earliest to the latest ride day loses no stress. */
  lemma FullRangeConserves(recs: seq<DatedTss>)
    requires recs != []
    ensures UniversalFunctions.Sum(DaySeries(recs, MinDay(recs), MaxDay(recs) - MinDay(recs) + 1)) == TotalTss(recs)
  {
    var lo, hi := MinDay(recs), MaxDay(recs);
    assert lo <= Day(recs[0].start) <= hi;
    var count: nat := hi - lo + 1;
    DaySeriesSum(recs, lo, count);
    assert forall k :: 0 <= k < |recs| ==> lo <= Day(recs[k].start) < hi + 1;
    TotalInAll(recs, lo, hi + 1);
    assert lo + count == hi + 1;
  }

  /** The series of `modules/data_functions.py` runs over consecutive days
      from the earliest to the latest ride, so it loses no stress: its
      entries add up to the rides' total. Without rides it raises
      `ValueError`. */
  lemma SeriesToLatestRideConserves(recs: seq<DatedTss>)
    ensures recs == [] <==> SeriesToLatestRide(recs) == Err(ValueError)
    ensures SeriesToLatestRide(recs).Ok? ==>
              var series := SeriesToLatestRide(recs).value;
              |series| == MaxDay(recs) - MinDay(recs) + 1 &&
              (forall i :: 0 <= i < |series| ==> series[i] == DayTotal(recs, MinDay(recs) + i)) &&
              UniversalFunctions.Sum(series) == TotalTss(recs)
  {
    if recs != [] {
      FullRangeConserves(recs);
    }
  }

  /** Only rides of the last 43 days count: every kept record starts at or
      after `now` less 43 days and comes from a summary row. */
  lemma RecentRecordsAreRecent(rows: seq<seq<Json>>, now: int, recs: seq<DatedTss>)
    requires RecentRecords(rows, now) == Ok(recs)
    ensures forall k :: 0 <= k < |recs| ==> recs[k].start >= now - LookbackDays * SecondsPerDay
    ensures forall k :: 0 <= k < |recs| ==> exists row :: row in rows && RowRecord(row) == Ok(recs[k])
  {
    var kept := RowsSince(rows, now - LookbackDays * SecondsPerDay);
    forall k | 0 <= k < |recs|
      ensures recs[k].start >= now - LookbackDays * SecondsPerDay
      ensures exists row :: row in rows && RowRecord(row) == Ok(recs[k])
    {
      assert RowRecord(kept[k]) == Ok(recs[k]);
      assert kept[k] in kept;
    }
  }

  /** With no summary rows in the last 43 days the series raises
      `ValueError`. */
  lemma DailyTssWithoutRecentRides(rows: seq<seq<Json>>, now: int)
    requires forall row :: row in rows ==> StartKey(row) < now - LookbackDays * SecondsPerDay
    ensures DailyTssToLatestRide(rows, now) == Err(ValueError)
  {
    var kept := RowsSince(rows, now - LookbackDays * SecondsPerDay);
    assert RecentRecords(rows, now) == Ok([]);
  }

  /** Two rides on one day, none on the next two and one on the day after:
      the days read 80, 0, 0 and 40. */
  lemma DailyTssExample()
    ensures var recs := [DatedTss(0, 50.0), DatedTss(3600, 30.0), DatedTss(259200, 40.0)];
            DaySeries(recs, MinDay(recs), MaxDay(recs) - MinDay(recs) + 1) == [80.0, 0.0, 0.0, 40.0]
  {
    var recs := [DatedTss(0, 50.0), DatedTss(3600, 30.0), DatedTss(259200, 40.0)];
    assert Day(0) == 0 && Day(3600) == 0 && Day(259200) == 3;
    assert MinDay(recs) == 0 && MaxDay(recs) == 3;
    var r1, r2 := [DatedTss(3600, 30.0), DatedTss(259200, 40.0)], [DatedTss(259200, 40.0)];
    assert recs[1..] == r1 && r1[1..] == r2 && r2[1..] == [];
    assert TotalIn(r2, 0, 1) == 0.0 && TotalIn(r2, 1, 2) == 0.0 && TotalIn(r2, 2, 3) == 0.0 && TotalIn(r2, 3, 4) == 40.0;
    assert TotalIn(r1, 0, 1) == 30.0 && TotalIn(r1, 1, 2) == 0.0 && TotalIn(r1, 2, 3) == 0.0 && TotalIn(r1, 3, 4) == 40.0;
    assert DayTotal(recs, 0) == 80.0 && DayTotal(recs, 1) == 0.0 && DayTotal(recs, 2) == 0.0 && DayTotal(recs, 3) == 40.0;
  }
}
