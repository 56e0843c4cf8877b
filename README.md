# Strava training-load pipeline and ride store, in Dafny

This project models the computational core of a personal Strava dashboard. That core covers, in order of data flow:

- **The ride store.** A `StravaRide` record has an `id`, the activity `metadata` and the per-sample `metrics_dict`. Ride hubs hold these records:
  - The current `RideHubBase`/`RideHub` pair drops repeated ids on construction.
  - The legacy `RideHub` does not.
  - Both hubs provide an iteration cursor, membership, first-match lookup, add, remove by ride, remove by id, and a JSON dump that can be read back.
- **The ride data processor.** It picks the activities that report a power meter and that the hub does not hold yet. It turns each one into a ride whose metadata carries the configured FTP, and adds that ride to the hub.
- **Normalized power.** The watts while moving, as selected by the `moving` mask, go through a 30-sample moving average. The moving average drops `None` samples and slides a window over the rest, including one last short window.
- **Heart-rate zones.** Five zones are cut by the lactate threshold and its 95 %, 89 % and 80 % points, each rounded.
- **The ride summary frame.** It has one row per ride over the 61 columns of `master_column_list`. Speeds and distances are converted, coordinates split, times formatted as `H:M:S`, and NP, intensity factor and TSS added. Rows are sorted newest first and exact duplicates removed. The model keeps the quirk that `max_speed` is the converted average speed, converted again.
- **The metrics frame of one ride.** Its streams are converted and given heart-rate zones. The columns kept depend on whether the ride was outdoors, which means it has a `latlng` stream.
- **The daily training-stress series.** The rides of the last 43 days are summed by calendar day and zero-filled. The first variant runs through today and the second through the latest ride.
- **The training loads.** The chronic training load (CTL) and the acute training load (ATL) are exponentially weighted moving averages of that series, with factors 2/43 and 2/8.
- **The form column of the TSB chart.** Each day's form is the previous day's CTL minus its ATL. The chart keeps 42 of the first 43 rows of the CTL/ATL frame, newest first.

Each source file keeps its own form:

- State the source changes in place is a class with `modifies` clauses. This covers the hubs' ride list and cursor, and the processor's hub.
- Loops are methods with invariants. These are the sliding-window generator, the moving-average accumulation and the EWMA fill.
- Expressions and pipelines are functions, with lemmas about them.

Modules:

| file | module | models |
|---|---|---|
| `wrappers.dfy` | `Wrappers` | `Option`, `Result`, the Python exception kinds, the first-error map over a list. |
| `json.dfy` | `JsonValues` | JSON-like Python values (`None`, bools, ints, floats, strings, lists, dicts) and `dict.get`. |
| `sorting.dfy` | `Sorting` | `sort_values` as an insertion sort on an integer key, and `drop_duplicates` as first occurrences kept. |
| `rides.dfy` | `Rides` | the three `StravaRide` classes, `to_dict`/`from_dict`, `_validate_strava_ride`, and the list operations of both hubs. |
| `hub.dfy` | `Hub` | `RideHubBase` and `RideHub` of `modules/objects/`. |
| `legacy_hub.dfy` | `LegacyHub` | the legacy `RideHub` of `modules/objects.py`. |
| `universal_functions.dfy` | `UniversalFunctions` | the sliding windows and the moving average. |
| `power_functions.dfy` | `PowerFunctions` | the moving-watts selection for NP, and the heart-rate zones. |
| `data_functions.dfy` | `DataFunctions` | the conversions, the `H:M:S` format, the summary frame, the metrics frame, and the daily series that ends at the latest ride. |
| `training_stress.dfy` | `TrainingStress` | the EWMA, the daily series that ends today, and CTL/ATL. |
| `plotting.dfy` | `Plotting` | the form column and the row selection of `plot_tsb_ctl_atl`. |
| `ride_data_processor.dfy` | `RideDataProcessing` | new-ride selection, the activity lookup, and the processed ride. |

Conventions:

- Python exceptions are `Err(...)` values of a `Result`, or `Fail(...)` of an `Outcome` for methods that return nothing.
- Timestamps are integer seconds since the epoch, and a day is a floor division by 86400.
- Floats are reals.
- The values the program reads from its configuration or computes in code that is not shown are parameters:
  - `CURRENT_FTP` is `ftp`.
  - `CURRENT_LACTATE_THRESHOLD` is `lt`.
  - The time of the call is `now`.
  - `calculate_training_stress_score` is `tss`.
  - The fourth-power mean, root and rounding of normalized power is `rootMeanFourth`.
  - The power-curve function is `powerCurve`.
  - The Strava API responses are `activities` and `fetch`.

## Model

| member | source | states |
|---|---|---|
| Rides.ToDict | modules/objects/Base.py:22-29 | The dictionary form has exactly the keys `id`, `metadata` and `metrics_dict`, holding the ride's own values. |
| Rides.FromDict | modules/objects/Base.py:31-39 | `AttributeError` exactly when one of the three keys is missing. Otherwise a ride of the class it is called on, whose dictionary form is the input restricted to the three keys. |
| Rides.FromDictToDict | modules/objects/StravaRide.py:15-32 | Round trip: `from_dict(r.to_dict()) == r`, for a ride of any of the three classes. |
| Rides.ToDictFromDict | modules/objects/StravaRide.py:24-32 | Round trip the other way: with the three keys present, `to_dict(from_dict(d))` is `d` with every other key dropped. |
| Rides.ValidateStravaRide | modules/objects/Base.py:7-9 | Passes exactly for a ride object of the expected class. Anything else, including a ride of another `StravaRide` class, gives `ValueError`. |
| Rides.IdsOf | modules/objects/Base.py:91-97 | `ride_ids` lists the ids of the rides in list order, one per ride. |
| Rides.FirstIndexWithId | modules/objects/Base.py:88 | For an id that is held: a position in the list whose ride has that id, and no earlier ride has it. |
| Rides.FirstWithId | modules/objects/Base.py:88 | For an id that is held: the ride at the first position of the list that holds the id. |
| Rides.WithoutIdRemoves | modules/objects/RideHub.py:24 | After filtering out an id, no ride still has it. |
| Rides.WithoutId | modules/objects/RideHub.py:24 | The comprehension keeping the rides whose id differs, no longer than the list. Its properties are stated by `WithoutIdRemoves`, `WithoutIdKeeps`, `WithoutIdFrom`, `WithoutIdAppend` and `WithoutAbsentId`. |
| Rides.WithoutIdAppend | modules/objects/RideHub.py:33 | Filtering by id distributes over concatenation. |
| Rides.WithoutAbsentId | modules/objects/RideHub.py:24 | Filtering out an id no ride has changes nothing, so `remove_ride` is a silent no-op then. |
| Rides.WithoutIdKeeps | modules/objects/RideHub.py:24 | Every ride with another id survives the filter. |
| Rides.WithoutIdFrom | modules/objects/RideHub.py:24 | Every surviving ride was in the list and has another id. |
| Rides.AddThenRemove | modules/objects/RideHub.py:12-33 | Appending a ride with a new id and then removing that id gives back the original list. |
| Rides.WithoutIdOfClass | modules/objects/RideHub.py:33 | Filtering keeps all rides of one class. |
| Rides.NubUnique | modules/objects/Base.py:47-55 | The first-occurrence list (the reference for the dedup constructor) has unique ids. |
| Rides.NubKeepsIds | modules/objects/Base.py:47-55 | Every id of the input survives in the first-occurrence list. |
| Rides.NubFrom | modules/objects/Base.py:47-55 | Every ride the first-occurrence list keeps comes from the input. |
| Rides.NubOfUnique | modules/objects/Base.py:47-55 | A list whose ids are already unique is kept whole and in order. |
| Rides.ReadRecord | modules/objects/Base.py:49-54 | One constructor argument:<br>- A non-dictionary gives `TypeError`, and a dictionary without `id` gives `KeyError`.<br>- With dedup, a known id is skipped before the other keys are read, so it is skipped even without `metadata` or `metrics_dict`.<br>- Otherwise it is exactly `from_dict`, with a missing key as `KeyError`. |
| Rides.JsonOutput | modules/objects/RideHub.py:35-41 | `create_json_output` is `to_dict` of every ride, in list order, with the same length. |
| Rides.DedupIsNub | modules/objects/Base.py:45-55 | Starting from an empty shared list, the dedup constructor keeps exactly the first ride of each id, in input order. |
| Rides.AppendAllFrom | modules/objects.py:49-55 | The legacy constructor appends every argument after the rides already in the list. |
| Rides.AppendAllSucceeds | modules/objects.py:49-55 | The legacy constructor succeeds exactly when every argument reads as a ride. |
| Rides.BuildRidesExtends | modules/objects/Base.py:45-55 | Both constructors only append: the earlier rides stay first, and every appended ride is of the hub's class. |
| Rides.BuildRides | modules/objects/Base.py:45-55 | The rides a hub constructor holds after reading its arguments in order, skipping known ids when it de-duplicates. Its properties are stated by `BuildRidesExtends`, `BuildRidesUnique`, `DedupIsNub`, `AppendAllFrom` and `AppendAllSucceeds`. |
| Rides.BuildRidesUnique | modules/objects/Base.py:49-50 | The dedup constructor keeps the ids unique when they were unique before. |
| Rides.RecordRidesOfJsonOutput | modules/objects/RideHub.py:35-41 | Reading back the JSON output of rides of one class gives the same rides. |
| Rides.JsonRoundTrip | modules/objects/RideHub.py:35-41 | A fresh dedup hub built from the JSON output of rides with unique ids holds the same rides, in the same order. |
| Hub.RideHub.Create | modules/objects/Base.py:42-55 | `RideHub(*args)` on a class-level list `shared`:<br>- The dedup build succeeds or raises as the model of the loop says.<br>- On success the new hub holds the built list and has no cursor yet. |
| Hub.CreateKeepsInvariant | modules/objects/Base.py:45-55 | Construction keeps a shared list with unique ids, all of the base class, in that state. |
| Hub.FirstHubIsDeduplicated | modules/objects/Base.py:45-55 | The first hub built on an empty class-level list holds the first ride of each id, and its ids are unique. |
| Hub.RideHub.RideIds | modules/objects/Base.py:91-97 | The hub's ids, one per ride, in list order. |
| Hub.RideHub.Len | modules/objects/Base.py:63-64 | `len(hub)` is the number of rides the hub holds. |
| Hub.RideHub.Contains | modules/objects/Base.py:80-84 | `id in hub` exactly when some held ride has that id. |
| Hub.RideHub.GetItem | modules/objects/Base.py:85-88 | `hub[id]` gives `ValueError` exactly when no ride has the id. Otherwise it gives the first ride with that id. |
| Hub.RideHub.GetRide | modules/objects/RideHub.py:43-48 | `get_ride` is `None` exactly when the id is absent. Otherwise it is the same ride `hub[id]` gives. |
| Hub.RideHub.CreateJsonOutput | modules/objects/RideHub.py:35-41 | The dictionary form of every ride, in list order. |
| Hub.RideHub.JsonOutputRoundTrip | modules/objects/RideHub.py:35-41 | For a hub with unique ids, a fresh hub built from its JSON output holds the same rides in the same order. |
| Hub.RideHub.Iter | modules/objects/Base.py:66-68 | `iter(hub)` returns the hub itself with the cursor reset to 0, rides unchanged. |
| Hub.RideHub.Next | modules/objects/Base.py:70-78 | `next` returns:<br>- the ride at the cursor, and advances the cursor by one;<br>- `StopIteration` with the cursor unchanged, once the cursor reaches the length;<br>- `AttributeError` before any `iter`. |
| Hub.RideHub.IterateAll | modules/objects/Base.py:66-78 | A `for` loop over the hub yields every ride in list order and leaves the cursor at the length. |
| Hub.RideHub.AddRide | modules/objects/RideHub.py:12-18 | `add_ride` validates against the base class and then always appends, a duplicate id included. A rejected argument changes nothing. |
| Hub.RideHub.RemoveRide | modules/objects/RideHub.py:20-24 | `remove_ride` gives `AttributeError` exactly for an argument without an `id` while some ride is held; on an empty hub any argument is a silent no-op. A ride argument drops every ride with its id. |
| Hub.RideHub.RemoveRideById | modules/objects/RideHub.py:26-33 | `remove_ride_by_id` gives `ValueError` exactly when the id is absent, leaving the list as it was. Otherwise it drops every ride with that id. |
| Hub.RideHub.RemovalKeepsOthers | modules/objects/RideHub.py:26-33 | After a removal the id is no longer contained. A ride is still held exactly when it was held before and has another id. |
| Hub.RideHub.AddThenRemoveById | modules/objects/RideHub.py:12-33 | A ride with a new id, once added, is contained, and removing its id restores the former list. |
| LegacyHub.RideHub.Create | modules/objects.py:41-55 | The legacy `RideHub(*args)` appends every argument without a dedup check. On success the new hub has no cursor yet. |
| LegacyHub.CreateAppendsAll | modules/objects.py:49-55 | The legacy constructor succeeds exactly when every argument reads as a ride, and then its list is the shared list followed by those rides. |
| LegacyHub.RideHub.RideIds | modules/objects.py:135-141 | The hub's ids, one per ride, in list order. |
| LegacyHub.RideHub.Len | modules/objects.py:63-64 | The number of rides held. |
| LegacyHub.RideHub.Contains | modules/objects.py:80-84 | `id in hub` exactly when some held ride has that id. |
| LegacyHub.RideHub.Get | modules/objects.py:117-124 | `get` gives `ValueError` exactly when the id is absent. Otherwise it gives the first ride with that id. |
| LegacyHub.RideHub.CreateJsonOutput | modules/objects.py:109-115 | The dictionary form of every ride, in list order. |
| LegacyHub.RideHub.JsonOutputRoundTrip | modules/objects.py:109-115 | A fresh legacy hub built from the JSON output holds the same rides, duplicates included. |
| LegacyHub.RideHub.Iter | modules/objects.py:66-68 | `iter(hub)` resets the cursor to 0 and returns the hub. |
| LegacyHub.RideHub.Next | modules/objects.py:70-78 | The same cursor semantics as the base hub: ride and advance, `StopIteration` at the end, `AttributeError` before `iter`. |
| LegacyHub.RideHub.IterateAll | modules/objects.py:66-78 | Iteration yields every ride in list order. |
| LegacyHub.RideHub.AddRide | modules/objects.py:86-92 | `add_ride` validates against the legacy class and then always appends. |
| LegacyHub.RideHub.RemoveRide | modules/objects.py:94-98 | `AttributeError` exactly for an argument without an `id` while some ride is held, a silent no-op for any argument on an empty hub, else every ride with its id dropped. |
| LegacyHub.RideHub.RemoveRideById | modules/objects.py:100-107 | `ValueError` exactly when the id is absent. Otherwise every ride with that id is dropped. |
| LegacyHub.RideHub.RemovalKeepsOthers | modules/objects.py:100-107 | After a removal the id is gone, and exactly the rides with other ids remain. |
| LegacyHub.RideHub.AddThenRemoveById | modules/objects.py:86-107 | Adding a ride with a new id and removing that id restores the former list. |
| UniversalFunctions.DropNoneAppend | modules/universal_functions.py:10 | Dropping `None` works piece by piece: it distributes over concatenation, so the other entries keep their order. |
| UniversalFunctions.DropNone | modules/universal_functions.py:10 | The mask `array != None`: the present samples, no more of them than the input. Their order and origin are stated by `DropNoneAppend`, `DropNoneSingleton` and `DropNoneFrom`. |
| UniversalFunctions.DropNoneSingleton | modules/universal_functions.py:10 | A single `None` is dropped, and a single number is kept. |
| UniversalFunctions.DropNoneFrom | modules/universal_functions.py:10 | Every kept sample was a sample of the input. |
| UniversalFunctions.GenerateSlidingWindowSegments | modules/universal_functions.py:5-15 | The pointer loop yields `n - w + 2` segments when `w <= n + 1` and none otherwise, where `n` counts the non-`None` samples. Segment `i` is `samples[i .. min(i + w, n)]`. |
| UniversalFunctions.SegmentsShape | modules/universal_functions.py:11-15 | The same count and slices, stated of the specification of the generator. |
| UniversalFunctions.SlidingWindowSegments | modules/universal_functions.py:5-15 | Everything the generator yields. Its count and slices are stated by `SegmentsShape` and `SegmentLengths`, and the loop that yields them is `GenerateSlidingWindowSegments`. |
| UniversalFunctions.SegmentLengths | modules/universal_functions.py:11-15 | Every segment but the last has length `w`, and the last has length `w - 1`. |
| UniversalFunctions.CreateMovingAverageArray | modules/universal_functions.py:18-27 | The accumulation loop gives one value per segment. Each value is the segment's sum divided by the window size, the short last segment included. |
| UniversalFunctions.MovingAverageShape | modules/universal_functions.py:21-27 | The moving average has as many values as there are segments, value `i` being the sum of segment `i` over `w`. |
| UniversalFunctions.MovingAverage | modules/universal_functions.py:18-27 | Each segment's sum over the window size. Its properties are stated by `MovingAverageShape`, `MovingAverageEmptyWhenWindowTooLarge`, `MovingAverageNonNegative` and `ShortFinalWindowExample`; the loop is `CreateMovingAverageArray`. |
| UniversalFunctions.MovingAverageEmptyWhenWindowTooLarge | modules/universal_functions.py:12 | A window longer than `n + 1` gives an empty moving average and raises nothing. |
| UniversalFunctions.SumNonNegative | modules/universal_functions.py:25 | A sum of non-negative samples is non-negative. |
| UniversalFunctions.MovingAverageNonNegative | modules/universal_functions.py:24-25 | Non-negative samples give a non-negative moving average. |
| UniversalFunctions.ShortFinalWindowExample | modules/universal_functions.py:12-25 | Two samples of 5 with a window of 2 average to `[5, 2.5]`: the short last window is divided by the full window size. |
| PowerFunctions.MaskSelectAppend | modules/power_functions.py:40 | Boolean-mask selection distributes over concatenation. |
| PowerFunctions.MaskSelectSingle | modules/power_functions.py:40 | One sample is kept exactly when its flag is true. |
| PowerFunctions.MaskSelectFrom | modules/power_functions.py:40 | Every selected sample is a sample whose flag is true. |
| PowerFunctions.MaskSelectUniform | modules/power_functions.py:40 | An all-true mask keeps every sample, and an all-false mask keeps none. |
| PowerFunctions.TruePositions | modules/power_functions.py:40 | The positions of the true flags, in order, each in range. |
| PowerFunctions.PositionSelect | modules/power_functions.py:40 | Integer indexing: it succeeds exactly when every position lies in `-n .. n-1`, and then picks, in order and with repeats, the sample at each position, a negative one counting from the end. Otherwise `IndexError`. |
| PowerFunctions.TruePositionPicks | modules/power_functions.py:40 | The sample at the k-th true flag is the k-th sample the boolean mask keeps. |
| PowerFunctions.MaskIsPositions | modules/power_functions.py:40 | Boolean indexing equals integer indexing by the positions of the true flags. |
| PowerFunctions.MovingIndex | modules/power_functions.py:38 | A non-empty `moving` list of booleans is a mask. A non-empty list of integers, where booleans count 1 and 0, is a list of positions. Anything else gives `IndexError`, including the empty list, which numpy makes a float array. |
| PowerFunctions.Sample | modules/power_functions.py:40 | A watts sample is a number, a boolean counting 1 or 0, or `None`. Any other value cannot be summed and gives `TypeError`. |
| PowerFunctions.Samples | modules/power_functions.py:40 | Every sample converted, or the `TypeError` of one that cannot be. |
| PowerFunctions.MovingWatts | modules/power_functions.py:37-40 | A mask selects exactly the samples whose aligned flag is true, in order. A list of positions selects by position. A mask of another length, a position out of range, a bad `moving` value or a missing watts list gives `IndexError`. |
| PowerFunctions.PresentCount | modules/universal_functions.py:10 | The number of samples the `None` filter keeps, at most the stream's length. |
| PowerFunctions.PresentCountOfSamples | modules/universal_functions.py:10 | Read samples keep exactly `PresentCount` values after the `None` filter. |
| PowerFunctions.CalculateNormalizedPowerFromMetricsDict | modules/power_functions.py:8-40 | A non-dictionary gives `TypeError`, and a failed indexing gives `IndexError`. With fewer than 29 present moving samples the moving average is empty, and `round(nan)` gives `ValueError`. Otherwise an unsummable sample gives `TypeError`. Success means a non-empty moving average, and NP is the rounded fourth-power mean of that 30-sample average. |
| PowerFunctions.EmptyAverageIsValueError | modules/power_functions.py:14-15 | For samples that read, NP is `ValueError` exactly when the moving average is empty. |
| PowerFunctions.NormalizedPowerIgnoresMissing | modules/power_functions.py:8-15 | NP depends only on the present samples: dropping the `None` samples first changes nothing. |
| PowerFunctions.NormalizedPower | modules/power_functions.py:8-15 | The fourth-power mean, root and rounding (`rootMeanFourth`) of the 30-sample moving average. Its properties are stated by `NormalizedPowerIgnoresMissing` and `CalculateNormalizedPowerFromMetricsDict`. |
| PowerFunctions.DropNonePresent | modules/universal_functions.py:10 | Samples that are all present survive the `None` filter unchanged. |
| PowerFunctions.StationaryRide | modules/power_functions.py:14-15 | A ride with fewer than 29 moving samples, including one that never moves, has an empty moving average, and its NP raises `ValueError` whatever its samples. |
| PowerFunctions.RoundHalfEven | modules/power_functions.py:48-52 | Python's `round`: the nearest integer, with a tie going to the even one. |
| PowerFunctions.RoundHalfEvenMonotone | modules/power_functions.py:48-52 | Rounding keeps order. |
| PowerFunctions.IdentifyHeartRateZone | modules/power_functions.py:43-54 | The zone is always in 1..5. It is 5 exactly above the threshold, and 4 exactly from the rounded 95 % point up to the threshold. |
| PowerFunctions.ThresholdsOrdered | modules/power_functions.py:48-52 | For a non-negative threshold the rounded 80 %, 89 % and 95 % points and the threshold are ordered. |
| PowerFunctions.ZoneBoundaries | modules/power_functions.py:46-54 | The threshold itself is zone 4. Zone 1 holds exactly below the rounded 80 % point. Zone 2 holds exactly between the 80 % and 89 % points. |
| PowerFunctions.ZoneMonotone | modules/power_functions.py:46-54 | A higher heart rate never gets a lower zone. |
| PowerFunctions.ZoneExamples | modules/power_functions.py:46-54 | With a threshold of 170 the rounded points are 162, 151 and 136, and 172, 165, 150, 120 fall in zones 5, 4, 2, 1. |
| DataFunctions.ConversionsAreScalings | modules/data_functions.py:103-115 | Each unit conversion is a positive scaling: it keeps zero and order and adds over sums. |
| DataFunctions.ConvertMpsToMph | modules/data_functions.py:103-105 | Metres per second to miles per hour, by the constant 2.23694: sign and zero are kept (see `ConversionsAreScalings`). |
| DataFunctions.ConvertMetersToMiles | modules/data_functions.py:108-110 | Metres to miles, by the constant 0.000621371: sign and zero are kept (see `ConversionsAreScalings`). |
| DataFunctions.ConvertMetersToFeet | modules/data_functions.py:113-115 | Metres to feet, by the constant 3.28084: sign and zero are kept (see `ConversionsAreScalings`). |
| DataFunctions.ConversionConstantsPlausible | modules/data_functions.py:103-115 | The constants are consistent with the units they name:<br>- a mile lies between 1609 m and 1610 m;<br>- a metre lies between 3.28 ft and 3.29 ft;<br>- 1 mph, which is 1609.344/3600 m/s, converts to 1 within 10⁻⁴. |
| DataFunctions.GrabElementOfListIfExists | modules/data_functions.py:118-120 | An empty or falsy value gives `None`. Otherwise the element at the index is returned, with Python's errors for an index past the end or a non-sequence. |
| DataFunctions.LatLngElements | modules/data_functions.py:118-120 | A non-empty coordinate pair gives its two elements, and an empty list gives `None`. |
| DataFunctions.DigitRoundTrip | modules/data_functions.py:130 | A digit's character reads back as that digit. |
| DataFunctions.ParseNatToString | modules/data_functions.py:130 | The decimal form of a natural number reads back as that number. |
| DataFunctions.HmsParts | modules/data_functions.py:128-129 | The two `divmod` steps give `h*3600 + m*60 + s == total` with `0 <= m, s < 60`, and `h >= 0` for a non-negative total. |
| DataFunctions.HmsPartsUnique | modules/data_functions.py:128-129 | Those are the only such parts. |
| DataFunctions.SplitNoColon | modules/data_functions.py:130 | A string without a colon splits into itself. |
| DataFunctions.SplitAtColon | modules/data_functions.py:130 | Splitting a joined string splits at the first colon. |
| DataFunctions.HmsRoundTrip | modules/data_functions.py:123-130 | The `H:M:S` string of a non-negative total splits into three digit runs that read back as hours, minutes and seconds of that total, with minutes and seconds below 60. |
| DataFunctions.ConvertTotalSecondsToHms | modules/data_functions.py:123-130 | `"h:m:s"` without zero padding, from two `divmod` steps. Its properties are stated by `HmsParts`, `HmsRoundTrip` and `HmsExamples`. |
| DataFunctions.HmsExamples | modules/data_functions.py:123-130 | 3725 seconds is `"1:2:5"`, with no zero padding. As a float it is `"1.0:2.0:5.0"`. |
| DataFunctions.Cell | modules/data_functions.py:158 | A frame cell is the ride's metadata value, or missing where its metadata lacks the key. |
| DataFunctions.ScaleCell | modules/data_functions.py:161-179 | Mapping a conversion over a column:<br>- A number is scaled, and a missing value stays missing.<br>- `None` is NaN in a `float64` column. In an object column it stays `None`, and multiplying it gives `TypeError`.<br>- Anything else gives `TypeError`. |
| DataFunctions.GrabCell | modules/data_functions.py:164-167 | The element lookup applied to a cell. A missing cell is NaN, which is truthy and cannot be indexed. |
| DataFunctions.KeyCell | modules/data_functions.py:169-172 | `x['id']` on a cell: the value when the dictionary has the key, otherwise `KeyError`, or `TypeError` on a non-dictionary. |
| DataFunctions.ColumnStorage | modules/data_functions.py:158 | pandas stores a column as `float64` exactly when every entry is a number or missing and some entry makes it float: a missing key, a float, or `None` beside an integer. Any other column keeps Python objects. |
| DataFunctions.FrameStorageOf | modules/data_functions.py:158-183 | The storage of each converted or formatted summary column is that column's pandas storage. |
| DataFunctions.HmsCell | modules/data_functions.py:183-184 | An integer cell gets its `H:M:S` string, printed `"1:2:5"` in an object column and `"1.0:2.0:5.0"` in a `float64` one. A whole float prints as a float. A missing cell gives `"nan:nan:nan"`. `None` is NaN in a `float64` column and `TypeError` as an object, and a string, list or dictionary gives `TypeError`. |
| DataFunctions.FloatColumnExample | modules/data_functions.py:158-183 | With one ride lacking `moving_time`, the column is `float64` and 3725 prints as `"1.0:2.0:5.0"`. When every ride has an integer, it prints as `"1:2:5"`. |
| DataFunctions.NormalizedPowerCell | modules/data_functions.py:187 | The ride's NP from the id-keyed dictionary, or NaN for an id it lacks. |
| DataFunctions.IntensityFactorCell | modules/data_functions.py:188 | IF is NP divided by `CURRENT_FTP`. NaN stays NaN, and an FTP of 0 gives `ZeroDivisionError`. |
| DataFunctions.StartDateCell | modules/data_functions.py:192 | A start time given as epoch seconds is kept. Anything else gives `ValueError`. |
| DataFunctions.Metadatas | modules/data_functions.py:158 | The frame is built from every ride's metadata dictionary, in hub order. A non-dictionary gives `AttributeError`. |
| DataFunctions.UnionKeys | modules/data_functions.py:158 | The frame's columns are exactly the keys found in some ride's metadata. |
| DataFunctions.PairsToMapLastWins | modules/data_functions.py:149 | In a dict comprehension the last entry for a key wins. |
| DataFunctions.NormalizedPowerDict | modules/data_functions.py:144-149 | The NP dictionary exists exactly when every ride's NP can be computed. Otherwise its error is that of the first ride, in hub order, whose NP raises, such as the `ValueError` of a ride with an empty moving average. |
| DataFunctions.NormalizedPowerDictContents | modules/data_functions.py:144-149 | Its keys are exactly the hub's ids. A ride whose id no later ride repeats maps to its own NP. |
| DataFunctions.RowOfTimeColumns | modules/data_functions.py:11-71 | In `master_column_list` order the time cells sit at positions 5-8 and the start date at 13. |
| DataFunctions.RowOfPlaceColumns | modules/data_functions.py:11-71 | The coordinate cells sit at positions 30-33. |
| DataFunctions.RowOfSpeedColumns | modules/data_functions.py:11-71 | The speed cells sit at positions 34-35. |
| DataFunctions.RowOfPowerColumns | modules/data_functions.py:11-71 | NP, IF and TSS sit at positions 58-60. |
| DataFunctions.SummaryRow | modules/data_functions.py:158-194 | A ride's row exists exactly when all its computed cells do, and it has the 61 columns of `master_column_list`. |
| DataFunctions.RowMakerWidth | modules/data_functions.py:194 | Every row has the 61 master columns. |
| DataFunctions.ComputeCellsValues | modules/data_functions.py:158-192 | Where each computed value of a row comes from:<br>- the converted average speed;<br>- `max_speed` is that value converted again, set only when the frame has the column;<br>- the coordinate elements;<br>- raw seconds and their `H:M:S` strings;<br>- NP by id, IF = NP/FTP, and TSS of those values;<br>- the start date. |
| DataFunctions.SummarySpeedColumns | modules/data_functions.py:161-162 | In the row, average speed is the converted metadata speed, and `max_speed` is the converted average speed converted again. |
| DataFunctions.SummaryLocationColumns | modules/data_functions.py:164-167 | Starting and ending latitude and longitude are elements 0 and 1 of `start_latlng` and `end_latlng`. |
| DataFunctions.SummaryTimeColumns | modules/data_functions.py:181-184 | `moving_time_seconds` and `elapsed_time_seconds` keep the raw seconds, and `moving_time` and `elapsed_time` are their `H:M:S` strings, printed as the frame stores the column. |
| DataFunctions.SummaryPowerColumns | modules/data_functions.py:187-189 | NP is the ride's NP by id or NaN. IF is `NP / CURRENT_FTP`. TSS is the score of the row's seconds, NP and IF. |
| DataFunctions.SummaryCopiedColumns | modules/data_functions.py:158-194 | Every column that is not computed holds the ride's own metadata value, NaN where it has none. |
| DataFunctions.ComputeCellsIgnoreMaxSpeed | modules/data_functions.py:161-162 | The computed cells do not depend on the ride's own `max_speed`. |
| DataFunctions.ReadCellsIgnoreMaxSpeed | modules/data_functions.py:158-192 | None of the metadata the summary reads is `max_speed`. |
| DataFunctions.MaxSpeedIgnored | modules/data_functions.py:161-162 | Two rides differing only in `max_speed` get the same summary row: the original value is discarded. |
| DataFunctions.SummaryOfEmptyHub | modules/data_functions.py:158-161 | An empty hub gives a frame without columns, and reading `average_speed` from it raises `AttributeError`. |
| DataFunctions.SummaryNeedsDictionaries | modules/data_functions.py:158 | A ride whose metadata is not a dictionary makes the summary raise `AttributeError`. |
| DataFunctions.MaxSpeedMustBeRead | modules/data_functions.py:162-194 | Reindexing to the master columns needs a `max_speed` column from the metadata. |
| DataFunctions.SummaryFrameParts | modules/data_functions.py:152-194 | A summary on success:<br>- Every metadata is a dictionary, and every NP can be computed.<br>- The rows are the per-ride rows sorted by start date, newest first, with duplicates removed. |
| DataFunctions.FrameOfRows | modules/data_functions.py:194 | Sorting and `drop_duplicates` give rows sorted newest first, with no repeated row, and exactly the rows some ride produced. |
| DataFunctions.SummaryFrame | modules/data_functions.py:152-194 | The summary frame:<br>- Every row has the 61 master columns.<br>- Rows are sorted by start date descending, with no exact duplicate.<br>- A row is in the frame exactly when some ride produces it. |
| DataFunctions.CreateRideSummaryDataFrame | modules/data_functions.py:152-194 | The summary frame over the hub's rides, or the error that stops it in the order "## Left out" states. Its properties are stated by `SummaryFrame`, `SummaryFrameParts`, `SummaryOfEmptyHub`, `SummaryNeedsDictionaries`, `MaxSpeedMustBeRead` and `MaxSpeedIgnored`. |
| DataFunctions.StreamColumns | modules/data_functions.py:205 | `pd.DataFrame(metrics_dict)`:<br>- A dictionary of equally long lists gives one column per key.<br>- `None`, an empty list or a list of scalars gives a frame with no named column.<br>- Any other dictionary, a number or a string gives `ValueError`. |
| DataFunctions.HeartRateZoneCell | modules/data_functions.py:211 | A sample's zone is its heart-rate zone, always in 1..5. NaN in a `float64` stream falls through to zone 1. `None` kept in an object stream, and any other non-number, gives `TypeError`. |
| DataFunctions.StreamStorage | modules/data_functions.py:205 | A stream is stored as `float64` exactly when all its samples are numbers or `None` and one is a float, or a `None` beside an integer. Any other stream keeps Python objects. |
| DataFunctions.NoneStorageExamples | modules/data_functions.py:178 | A column that is only `None` is stored as objects, so converting it gives `TypeError`. The same holds for a heart-rate stream of nulls (source line 211). Beside an integer, `None` is NaN and converts to NaN, or to zone 1. |
| DataFunctions.SelectColumns | modules/data_functions.py:217-219 | `frame[fields]` gives the asked columns in the order asked, or `KeyError` for a missing one. |
| DataFunctions.MapColumn | modules/data_functions.py:207-216 | `frame.col.map(f)` is `f` of every sample, or `AttributeError` when the column is missing. |
| DataFunctions.MetricsOfAbsentRide | modules/data_functions.py:200-203 | An id the hub does not hold gives `ValueError` before anything else. |
| DataFunctions.MetricsFrameErrors | modules/data_functions.py:205-211 | Streams pandas cannot make a frame of give `ValueError`. A frame without a speed, distance or heart-rate column gives `AttributeError`, including the column-less frame of a `None` or scalar-list `metrics_dict`. |
| DataFunctions.UnnamedFrameExamples | modules/data_functions.py:205-207 | `None`, `[]` and `[1, None]` as `metrics_dict` give `AttributeError` at the speed column. A number or a string gives `ValueError`. |
| DataFunctions.MetricsFrameShape | modules/data_functions.py:205-216 | A metrics frame needs speed, distance and heart-rate streams, and all its columns have the same length. |
| DataFunctions.MetricsFrameKeeps | modules/data_functions.py:205-216 | Every stream that is not converted is kept as it was. The converted columns and `hr_zone` are present, and `latlng` is kept exactly when the ride has it. |
| DataFunctions.MetricsFrameBase | modules/data_functions.py:207-211 | Speed, distance and the zones are the three mapped columns. |
| DataFunctions.MetricsFrameConversions | modules/data_functions.py:207-208 | `velocity_smooth` is each speed sample converted to feet, and `distance` is each sample converted to miles. |
| DataFunctions.MetricsFrameZones | modules/data_functions.py:211 | `hr_zone` holds the zone of every heart-rate sample, each in 1..5. |
| DataFunctions.MetricsFrameCoordinates | modules/data_functions.py:213-216 | An outdoor ride gets `latitude` and `longitude` as elements 0 and 1 of each `latlng` sample. |
| DataFunctions.MetricsColumnsChosen | modules/data_functions.py:197-219 | On success the ride is held. The columns are the outdoor set when it has `latlng` and the indoor set otherwise, in that order, taken from the converted frame. |
| DataFunctions.MetricsFrame | modules/data_functions.py:205-216 | The converted frame of a ride's streams, before the columns are picked. Its properties are stated by `MetricsFrameErrors`, `MetricsFrameShape`, `MetricsFrameKeeps`, `MetricsFrameBase`, `MetricsFrameConversions`, `MetricsFrameZones` and `MetricsFrameCoordinates`. |
| DataFunctions.AddCoordinates | modules/data_functions.py:213-216 | An outdoor ride, one with a `latlng` stream, gains exactly the `latitude` and `longitude` columns, each element of every sample. Every other column is kept, and an indoor ride's frame is unchanged. |
| DataFunctions.CreateIndividualRideMetricsDataFrame | modules/data_functions.py:197-219 | `ValueError` for an absent id, else the chosen columns of the converted frame. Its properties are stated by `MetricsOfAbsentRide` and `MetricsColumnsChosen`. |
| DataFunctions.Day | modules/data_functions.py:235 | The calendar day of a time is the day whose 86400 seconds contain it. |
| DataFunctions.RowsSince | modules/data_functions.py:230-232 | The rows at or after the cutoff, and only those. None remain exactly when every ride is older. |
| DataFunctions.RowRecord | modules/data_functions.py:232-236 | A row's start and TSS. A missing score counts 0, as `sum` skips NaN, and a non-number cannot be summed. |
| DataFunctions.DaySeries | modules/data_functions.py:236-239 | The reindexed series has one entry per day of the range. Each entry is that day's total and 0 on a day without rides. |
| DataFunctions.MinDay | modules/data_functions.py:237 | `index.min()` is a day of some ride, and no ride is earlier. |
| DataFunctions.MaxDay | modules/data_functions.py:237 | `index.max()` is a day of some ride, and no ride is later. |
| DataFunctions.TotalInSplit | modules/data_functions.py:236-239 | Splitting a range of days splits its total. |
| DataFunctions.TotalInAll | modules/data_functions.py:236-239 | A range holding every ride's day holds the whole stress. |
| DataFunctions.DaySeriesSum | modules/data_functions.py:236-239 | The series of a range sums to the stress of the rides on those days. |
| DataFunctions.EmptyDayIsZero | modules/data_functions.py:239 | A day without a ride is 0. |
| DataFunctions.FullRangeConserves | modules/data_functions.py:236-240 | From the earliest to the latest ride, the series sums to the stress of all kept rides. |
| DataFunctions.SeriesToLatestRideConserves | modules/data_functions.py:237-240 | The `data_functions` variant:<br>- It raises `ValueError` exactly when no ride is kept.<br>- Otherwise it runs over consecutive days from the earliest to the latest ride, with one total per day.<br>- It conserves the total stress. |
| DataFunctions.RecentRecordsAreRecent | modules/data_functions.py:230-232 | Only rides that start at or after now minus 43 days are counted, each from a row of the summary. |
| DataFunctions.DailyTssWithoutRecentRides | modules/data_functions.py:230-238 | With no ride in the last 43 days, the date range has no ends and raises `ValueError`. |
| DataFunctions.DailyTssExample | modules/data_functions.py:236-239 | Two rides on day 0 and one on day 3 give `[80, 0, 0, 40]`. |
| DataFunctions.DailyTssToLatestRide | modules/data_functions.py:228-240 | The daily totals from the earliest to the latest ride of the last 43 days, over the summary rows. Its properties are stated by `RecentRecordsAreRecent`, `SeriesToLatestRideConserves`, `DailyTssWithoutRecentRides` and `DailyTssExample`. |
| DataFunctions.GetDailyTssScoreArray | modules/data_functions.py:222-240 | The same series over the summary frame of the hub, whose error it passes on. |
| TrainingStress.AlphasInRange | modules/training_stress_balance_functions.py:8-9 | `ALPHA_CTL = 2/43` and `ALPHA_ATL = 2/8` lie strictly between 0 and 1, the acute factor being the larger. |
| TrainingStress.CalculateEwma | modules/training_stress_balance_functions.py:12-28 | The fill loop gives `IndexError` exactly for an empty input. Otherwise the output has the input's length, `output[0] == array[0]`, and each later entry is `alpha*array[i] + (1-alpha)*output[i-1]`. |
| TrainingStress.EwmaUnique | modules/training_stress_balance_functions.py:25-27 | The recurrence determines the output: two arrays meeting it for the same input are equal. |
| TrainingStress.EwmaAgreesUpTo | modules/training_stress_balance_functions.py:25-27 | Two outputs of the recurrence agree at each position. |
| TrainingStress.EwmaOfConstant | modules/training_stress_balance_functions.py:25-27 | A constant input gives a constant output. |
| TrainingStress.EwmaWithinBounds | modules/training_stress_balance_functions.py:18-27 | For `0 <= alpha <= 1`, each output lies between the least and the greatest input up to that day. |
| TrainingStress.BlendBetween | modules/training_stress_balance_functions.py:27 | One step of the recurrence stays within the range of its two operands. |
| TrainingStress.EwmaNonNegative | modules/training_stress_balance_functions.py:18-27 | Non-negative daily stress gives non-negative CTL and ATL. |
| TrainingStress.UpperBound | modules/training_stress_balance_functions.py:26-27 | A value no smaller than any input up to a day. |
| TrainingStress.SeriesToTodayContents | modules/training_stress_balance_functions.py:35-43 | The daily series:<br>- It raises `ValueError` exactly when no ride is kept.<br>- Otherwise it runs over consecutive days from the earliest kept ride through today, with length `today - minDay + 1`.<br>- Each entry is that day's total.<br>- It sums to the stress of the rides up to today. |
| TrainingStress.SeriesToToday | modules/training_stress_balance_functions.py:35-43 | The daily totals from the earliest kept ride through today, or `ValueError` with no kept ride. Its properties are stated by `SeriesToTodayContents` and `SeriesToTodayConserves`. |
| TrainingStress.GetDailyTssScoreArray | modules/training_stress_balance_functions.py:31-43 | The same series over the summary frame of the hub and its rides of the last 43 days, passing on the summary's error. |
| TrainingStress.SeriesToTodayConserves | modules/training_stress_balance_functions.py:41-43 | When no kept ride is after today, the series holds the whole stress of the kept rides. |
| TrainingStress.CtlAndAtlOf | modules/training_stress_balance_functions.py:63-66 | CTL and ATL are the EWMAs of the same daily series with the two factors, so both have its length. An empty series gives `IndexError`. |
| TrainingStress.CalculateCtlAndAtlArrays | modules/training_stress_balance_functions.py:46-66 | Over a hub:<br>- An error of the daily series is passed on, and an empty series gives `IndexError`.<br>- On success CTL and ATL are the two EWMAs of the non-empty series, with its length. |
| Plotting.Head | modules/plotting.py:46 | `head(n)` is the first `n` rows, or all of them when there are fewer. |
| Plotting.Ascending | modules/plotting.py:46 | The first 43 rows of the frame (`head(43)`), reordered. They are the most recent only when the CTL/ATL frame comes newest first, which code outside this model decides. |
| Plotting.TsbColumn | modules/plotting.py:48-49 | `tsb[0] == 0`, and `tsb[i] == ctl[i-1] - atl[i-1]` for `i >= 1`. It has the frame's length, or length 1 for an empty frame. |
| Plotting.WithTsb | modules/plotting.py:50 | Assigning the column keeps each row's date and loads and adds the aligned `tsb`. |
| Plotting.PlotRows | modules/plotting.py:46-51 | A frame with rows gives chart rows that keep their loads. An empty frame raises nothing: assigning `[0]` gives the frame one row, whose date and loads are NaN and whose `tsb` is 0, and that row is plotted. |
| Plotting.PlotRowsShape | modules/plotting.py:46-51 | At most 42 rows, all from the first 43 rows of the frame, sorted by date descending. |
| Plotting.TaggedFromHead | modules/plotting.py:46-50 | Every row that gets a stress balance carries the loads of one of the first 43 rows of the frame. |
| Plotting.Reverse | modules/plotting.py:51 | Reversing a list keeps its elements. |
| Plotting.SortDescendingReverses | modules/plotting.py:51 | Sorting ascending rows with distinct dates in descending order reverses them. |
| Plotting.WithTsbKeepsDates | modules/plotting.py:50 | Adding the column keeps the ascending order of the dates. |
| Plotting.AscendingOldestFirst | modules/plotting.py:46 | With distinct dates, the ascending sort puts the oldest first. |
| Plotting.PlotRowsReversed | modules/plotting.py:46-51 | With distinct dates, the chart is the first 42 of the tagged rows reversed. |
| Plotting.PlotRowsLag | modules/plotting.py:48-51 | One-day lag: each plotted day's `tsb` is the form (CTL minus ATL) of the plotted day before it. With 42 rows or fewer, the oldest plotted day has `tsb` 0. |
| Plotting.ReversedRowAt | modules/plotting.py:50-51 | Plotted row k, newest first, carries the loads and the stress balance of the k-th newest of the first 43 rows. |
| Plotting.FirstIsLeast | modules/plotting.py:46 | The first of a list sorted ascending is the least element. |
| Plotting.PlotRowsPositions | modules/plotting.py:46-51 | With 43 or more rows, plotted row `k` is ascending row `42 - k` with its `tsb`. |
| Plotting.ReversedPositions | modules/plotting.py:50-51 | Position by position, the head of the reversed tagged list. |
| Plotting.HeadOfReverse | modules/plotting.py:51 | The head of the reverse of `n + 1` items is the last `n` items, newest first. |
| Plotting.PlotRowsDropOldest | modules/plotting.py:46-51 | With 43 or more rows, the oldest of the 43 is dropped from the chart. The last plotted row's `tsb` is that oldest day's form. |
| RideDataProcessing.PowerCandidate | modules/objects/RideDataProcessor.py:59 | An activity is a candidate exactly when its `device_watts` is truthy, and it yields its `id`. A non-dictionary gives `AttributeError`, and a candidate without an `id` gives `KeyError`. |
| RideDataProcessing.Somes | modules/objects/RideDataProcessor.py:59 | The kept values are exactly those present. |
| RideDataProcessing.SomePlaces | modules/objects/RideDataProcessor.py:59 | The positions of the present values, one per kept value. |
| RideDataProcessing.SomePlacesIncrease | modules/objects/RideDataProcessor.py:59 | Those positions increase, so the order is kept. |
| RideDataProcessing.SomePlacesComplete | modules/objects/RideDataProcessor.py:59 | Every present value's position is listed. |
| RideDataProcessing.SomePlaceListed | modules/objects/RideDataProcessor.py:59 | One present value's position is listed. |
| RideDataProcessing.CandidateIds | modules/objects/RideDataProcessor.py:59 | The candidate ids are exactly the ids of activities with a truthy `device_watts`. Otherwise the list gives the first activity's error. |
| RideDataProcessing.CandidateIdsInOrder | modules/objects/RideDataProcessor.py:59 | The candidate ids come from increasing activity positions, and every activity with a power meter has its position among them. |
| RideDataProcessing.PlacesOfCandidates | modules/objects/RideDataProcessor.py:59 | The same, stated of the per-activity results. |
| RideDataProcessing.NewIds | modules/objects/RideDataProcessor.py:60 | The new ids are exactly the candidates the hub does not hold. Each one occurs as often as among the candidates. |
| RideDataProcessing.NewIdsAppend | modules/objects/RideDataProcessor.py:60 | The filter goes candidate by candidate, so filtering two runs is filtering each. This keeps the candidates' order. |
| RideDataProcessing.NewIdsOfFresh | modules/objects/RideDataProcessor.py:60 | When the hub holds none of the candidates, the new ids are the candidates themselves, in order, repeats included. |
| RideDataProcessing.FirstActivityWithId | modules/objects/RideDataProcessor.py:99 | `next(...)` gives:<br>- the first activity with the id;<br>- `StopIteration` exactly when every activity has another id;<br>- the `TypeError` or `KeyError` of an earlier activity that is not a dictionary or lacks an `id`. |
| RideDataProcessing.CandidateIsFound | modules/objects/RideDataProcessor.py:59-99 | The lookup of a candidate id never meets `StopIteration`. |
| RideDataProcessing.SearchMeetsNoStop | modules/objects/RideDataProcessor.py:99 | An id some dictionary activity holds is found, or a `KeyError` comes first. |
| RideDataProcessing.StreamData | modules/objects/RideDataProcessor.py:104 | The metrics dictionary is the `data` of every stream. It fails exactly when a response entry is not a dictionary with `data`. |
| RideDataProcessing.ProcessedRide | modules/objects/RideDataProcessor.py:99-110 | The ride fails exactly when the lookup or the streams fail, with their error. Otherwise:<br>- the ride has the id;<br>- its metadata is the first matching activity with `ftp = CURRENT_FTP`;<br>- its metrics are the streams with the `power_curve` added. |
| RideDataProcessing.ImportedClassIsRejected | modules/objects/RideDataProcessor.py:10 | A ride built with the class of `StravaRide.py` is rejected by the hub's validation with `ValueError`. The same ride built with the base class passes. |
| RideDataProcessing.ImportedClassRejectsExample | modules/objects/RideDataProcessor.py:10 | A concrete activity with a power meter whose processed ride the hub rejects. |
| RideDataProcessing.MapResultsSnoc | modules/objects/RideDataProcessor.py:71-72 | Processing one more id extends the processed list by its ride. |
| RideDataProcessing.ProcessedPrefixGrows | modules/objects/RideDataProcessor.py:71-72 | Loop step: the hub's added rides are those of the processed prefix. |
| RideDataProcessing.RideDataProcessor.ProcessSingleRideAsWritten | modules/objects/RideDataProcessor.py:87-110 | As written, processing never succeeds, and the hub is unchanged. An id with no activity gives the lookup error, and a bad stream response gives the streams error. A ride that is found and whose streams are read is rejected with `ValueError`. |
| RideDataProcessing.RideDataProcessor.ProcessSingleRide | modules/objects/RideDataProcessor.py:87-110 | Processing with the base class: the ride's error leaves the hub as it was. Otherwise the processed ride is appended, `ftp` included, and the cursor is untouched. |
| RideDataProcessing.RideDataProcessor.ProcessRides | modules/objects/RideDataProcessor.py:71-72 | The loop, run with the corrected `ProcessSingleRide` of "## Findings", appends the processed rides in id order. It stops at the first id that fails, with that error, having appended the rides before it. |
| RideDataProcessing.RideDataProcessor.RetrieveAndProcessNewRideData | modules/objects/RideDataProcessor.py:58-85 | The run with the corrected `ProcessSingleRide` of "## Findings":<br>- An error of the candidate list is passed on with the hub unchanged.<br>- No new ids returns 0 and processes nothing.<br>- Otherwise it returns the number of new ids, with their rides appended in order, or the first failure with the earlier rides appended. |
| RideDataProcessing.RideDataProcessor.RetrieveAndProcessNewRideDataAsWritten | modules/objects/RideDataProcessor.py:58-85 | The run as written never adds a ride, and the hub is unchanged:<br>- An error of the candidate list is passed on.<br>- No new ids returns 0.<br>- Otherwise the loop stops at the first new id. It ends with that id's lookup or streams error, or else with the `ValueError` of `add_ride`. |
| RideDataProcessing.ProcessingOutcomeAsWritten | modules/objects/RideDataProcessor.py:87-107 | As written, processing one id always fails: with the lookup error, else the streams error, else `ValueError`. |
| RideDataProcessing.ProcessedRidesAreHeld | modules/objects/RideDataProcessor.py:60-110 | After a successful run with the corrected `ProcessSingleRide`, the added rides have exactly the new ids in order. They are of the base class and carry `ftp = CURRENT_FTP` in their metadata. As written, no ride is added (`RetrieveAndProcessNewRideDataAsWritten`). |
| Sorting.SortBySorted | modules/data_functions.py:194 | `sort_values` gives rows ordered by the key. |
| Sorting.SortBy | modules/data_functions.py:194 | Sorting keeps the length, and the rows as a multiset. |
| Sorting.InsertSorted | modules/data_functions.py:194 | Inserting into a sorted list keeps it sorted. |
| Sorting.Distinct | modules/data_functions.py:194 | `drop_duplicates` keeps every row value and nothing else. |
| Sorting.DistinctHasNoRepeats | modules/data_functions.py:194 | After `drop_duplicates` no row appears twice. |
| Sorting.DistinctOfDistinct | modules/data_functions.py:194 | A list without repeats is left as it is. |
| Sorting.DistinctSorted | modules/data_functions.py:194 | Removing duplicates keeps a sorted list sorted. |
| Sorting.SortThenDistinct | modules/data_functions.py:194 | Sorted, without repeats, with exactly the input's rows. |
| Sorting.SortedPermutationsEqual | modules/plotting.py:46-51 | Two sorted permutations of a list with distinct keys are equal, so the sort is determined. |
| Sorting.KeysDistinctPermuted | modules/plotting.py:46-51 | Distinct keys stay distinct under permutation. |
| Wrappers.MapResults | modules/objects/RideDataProcessor.py:71-72 | Mapping a raising step over a list succeeds exactly when every step does, with one result per element. Otherwise it fails with the first error. |
| JsonValues.DictGet | modules/power_functions.py:38 | `dict.get(key)` is the value, or `None` for an absent key. |

## Left out

- All I/O:
  - the JSON file loads at import time and `_save_ride_hub_to_file`;
  - the HTTP requests of `modules/api_functions.py`, `modules/functions.py` and `process_single_ride`;
  - `time.sleep`, `tqdm`, the logger and the Streamlit pages;
  - the Plotly figures, including `plot_weekly_tss`, whose weekly `Grouper` and rolling mean are UI.
- The Strava responses are parameters: `activities`, and `fetch` for each ride's streams.
- Configuration values and code that is not part of this model are parameters:
  - `CURRENT_FTP`, `CURRENT_LACTATE_THRESHOLD` and the time of the call;
  - `calculate_training_stress_score`;
  - `create_individual_ride_power_curve_array`;
  - the fourth-power mean, the fourth root and `round` of a non-empty moving average, since float root extraction is not modelled. An empty moving average is modelled: its mean is NaN, and `round` raises `ValueError`.
- `get_ctl_and_atl_dataframe` and `global_variables` are not part of this model. The TSB chart starts from a list of dated CTL/ATL rows.
- Floats are reals: conversions are exact, and no NaN arithmetic or bit-level rounding is modelled. A missing frame cell is `None` where pandas has NaN. NaN samples are never dropped by the `None` filter, and the model has no NaN samples.
- Python equality between `1` and `1.0` is not modelled: ids compare as values of one JSON-like type.
- `pd.to_datetime`, `strftime` and timezones: a start date is epoch seconds, and a day is the UTC calendar day. `DataFunctions.StartDateCell` accepts only integer seconds, and any other value is `ValueError`.
- DataFunctions.HmsCell: a float number of seconds that is not whole is a `TypeError` in the model. Python formats it with float `divmod`, whose shortest decimal form is not modelled. A float whole number prints as digits and `.0`, which is Python's form below 10^16 only. Larger values print with an exponent in Python.
- pandas column types elsewhere: a ride's own value is kept as it is in every column the summary copies or passes on. This includes the `_seconds` columns and the arguments of the stress score. pandas turns the integers of a column with a NaN into floats. Only the converted and formatted columns model the storage, through `DataFunctions.ColumnStorage` and `DataFunctions.StreamStorage`: the `H:M:S` strings, and `None` in the scaled columns and the heart-rate zones.
- DataFunctions.CreateRideSummaryDataFrame follows pandas' error order only in part. pandas runs each statement over every ride before the next statement. The model checks these whole-frame steps first, in this order:
  1. every metadata is a dictionary (`AttributeError`);
  2. every column the summary reads is present (`AttributeError`);
  3. the whole normalized-power dictionary, whose first failing ride decides the error.
  It then computes ride by ride, in hub order, and each ride's cells in source statement order. The first failure reported is the summary's error. Last comes the reindexing to the master columns (`KeyError`). So when two different statements would raise for different rides, or when an NP error and a cell error both arise, the model may report the other error. An example is a string `average_speed` in one ride and a missing `elev_low` column: Python gives the `TypeError` of line 161, and the model gives the `AttributeError`.
- A metrics frame whose streams are not all equally long lists is `ValueError`. pandas' broadcasting of scalar values into columns is not modelled.
- DataFunctions.StreamColumns: a `metrics_dict` that is a list holding dictionaries or lists is `ValueError` in the model. pandas reads a list of dictionaries as records, one row each, and a list of lists as a 2-d frame with integer column names.
- PowerFunctions.MovingIndex: a `moving` value that is a bare boolean, a bare integer or a nested list is `IndexError` in the model. numpy indexes with a 0-d or a multi-dimensional array instead.
- PowerFunctions.Sample: a watts list holding nested lists is read here as unsummable samples. numpy may instead build a 2-d array, or raise `ValueError` for ragged rows.
- DataFunctions.Metadatas: when the first ride's metadata is itself a list, pandas reads the rows as lists. If a later row is a dictionary it may then raise `TypeError`, where the model reports `AttributeError`.
- The pandas version: `output_df.map` is read as the frame's `map` column, as pandas before 2.1 does. From pandas 2.1 on, `DataFrame.map` is a method, so `output_df.map.map(...)` raises `AttributeError` there.
- `RideDataProcessing.StreamData`: when one stream is not a dictionary and another lacks `data`, the model reports `TypeError`. Python reports the error of whichever comes first in the response's key order, and the model's dictionaries have no order. The contract states when it fails, not which of the two errors it reports.
- Aliasing of the activity dictionary: the source stores the activity itself as the ride's metadata and then adds `ftp` to it, so the activity list changes too. The model gives the ride the activity with `ftp` added, and leaves the list alone. The power curve is a function of the ride's streams, which raises nothing. The source computes it from the hub after `add_ride`.
- The class-level `_ride_list` that all hubs share until `remove_*` rebinds it is the explicit `shared` parameter of `Create`. Hubs do not share their lists otherwise.
- `pandas.sort_values` is not a stable sort. `Plotting.PlotRowsLag`, `Plotting.PlotRowsReversed`, `Plotting.PlotRowsPositions` and `Plotting.PlotRowsDropOldest` assume the dates of the first 43 rows are distinct, as they are for one row per day.
- `UniversalFunctions.CreateMovingAverageArray` and `UniversalFunctions.GenerateSlidingWindowSegments` require a window of at least 1, since the only caller passes 30. A zero or negative window, with numpy's negative slicing and division by zero, is not modelled.
- `TrainingStress.CalculateEwma`: `alpha` is any real. Its bound to `[0, 1]` is a docstring promise, assumed only by the lemmas that need it.
- Behaviour of the code a reader may not expect, which the model follows:
  - A summary over an empty hub raises `AttributeError` rather than returning an empty frame.
  - `add_ride` appends a ride whose id is already held.
  - `remove_ride` of an absent id is a silent no-op.

## Findings

| source | as written | input that shows it | evidently intended | confidence | as-written member | corrected member |
|---|---|---|---|---|---|---|
| modules/objects/RideDataProcessor.py:10 | The processor builds its rides with the `StravaRide` class of `modules/objects/StravaRide.py`. `RideHub.add_ride` validates with `isinstance` against the distinct `StravaRide` class of `modules/objects/Base.py`, so every processed ride is rejected with `ValueError`. A retrieval with any new id therefore ends at the first one, with no ride added. | One activity `{"id": 1, "device_watts": true}`, an empty stream response and an FTP of 250: the processed ride is refused by the hub. | Build the ride with the class the hub validates against, so that it is appended with its metrics and `ftp`. | not executed | RideDataProcessing.RideDataProcessor.ProcessSingleRideAsWritten | RideDataProcessing.RideDataProcessor.ProcessSingleRide |
