/** The ride record (`modules/objects/Base.py`, `modules/objects/StravaRide.py`,
    and its copy in `modules/objects.py`) and the operations on a list of
    rides that both ride hubs share. */
module Rides {
  import opened Wrappers
  import opened JsonValues

  /** The repository declares three distinct dataclasses named `StravaRide`:
      one in `Base.py`, one in `StravaRide.py` and one in the legacy
      `objects.py`. `isinstance` and dataclass equality tell them apart. */
  datatype RideClass = BaseRide | StandaloneRide | LegacyRide

  /** A `StravaRide` instance. The dataclass checks no field types, so each
      field holds whatever value it was given. */
  datatype StravaRide = StravaRide(cls: RideClass, id: Json, metadata: Json, metricsDict: Json)

  /** Any argument a hub method can be handed: a ride object or a plain value. */
  datatype PyObject = RideObject(ride: StravaRide) | JsonObject(value: Json)

  /** The keys of a ride's dictionary form. */
  const RideKeys: set<string> := {"id", "metadata", "metrics_dict"}

  /** `StravaRide.to_dict`. */
  function ToDict(r: StravaRide): (d: Dict)
    ensures d.Keys == RideKeys
    ensures d["id"] == r.id && d["metadata"] == r.metadata && d["metrics_dict"] == r.metricsDict
  {
    map["id" := r.id, "metadata" := r.metadata, "metrics_dict" := r.metricsDict]
  }

  /** `StravaRide.from_dict`, a class method: `cls` is the class it is
      called on. */
  function FromDict(cls: RideClass, d: Dict): (r: Result<StravaRide>)
    ensures r.Err? <==> !(RideKeys <= d.Keys)
    ensures r.Err? ==> r.error == AttributeError
    ensures r.Ok? ==> r.value.cls == cls && ToDict(r.value) == map k | k in RideKeys :: d[k]
  {
    if "id" !in d || "metadata" !in d || "metrics_dict" !in d then Err(AttributeError)
    else Ok(StravaRide(cls, d["id"], d["metadata"], d["metrics_dict"]))
  }

  /** Rebuilding a ride from its dictionary form gives the same ride. */
  lemma FromDictToDict(r: StravaRide)
    ensures FromDict(r.cls, ToDict(r)) == Ok(r)
  {
  }

  /** The dictionary form of a rebuilt ride is the given dictionary with every
      key other than the three dropped. */
  lemma ToDictFromDict(cls: RideClass, d: Dict)
    requires RideKeys <= d.Keys
    ensures FromDict(cls, d).Ok?
    ensures ToDict(FromDict(cls, d).value) == map k | k in d && k in RideKeys :: d[k]
  {
  }

  /** `_validate_strava_ride`: passes exactly the instances of the class the
      defining module calls `StravaRide`. */
  function ValidateStravaRide(expected: RideClass, obj: PyObject): (r: Outcome)
    ensures r.Pass? <==> obj.RideObject? && obj.ride.cls == expected
    ensures r.Fail? ==> r.error == ValueError
  {
    if obj.RideObject? && obj.ride.cls == expected then Pass else Fail(ValueError)
  }

  // ----- lists of rides -----

  /** `ride_ids`: the ids in list order. */
  function IdsOf(rides: seq<StravaRide>): (ids: seq<Json>)
    ensures |ids| == |rides|
    ensures forall i :: 0 <= i < |rides| ==> ids[i] == rides[i].id
  {
    if rides == [] then [] else [rides[0].id] + IdsOf(rides[1..])
  }

  /** The list comprehension keeping every ride whose id differs from `id`. */
  function WithoutId(rides: seq<StravaRide>, id: Json): (r: seq<StravaRide>)
    ensures |r| <= |rides|
  {
    if rides == [] then []
    else if rides[0].id == id then WithoutId(rides[1..], id)
    else [rides[0]] + WithoutId(rides[1..], id)
  }

  /** The position of the first ride in `rides` whose id is `id`. */
  function FirstIndexWithId(rides: seq<StravaRide>, id: Json): (k: nat)
    requires id in IdsOf(rides)
    ensures k < |rides| && rides[k].id == id
    ensures forall j :: 0 <= j < k ==> rides[j].id != id
  {
    if rides[0].id == id then 0
    else
      assert IdsOf(rides) == [rides[0].id] + IdsOf(rides[1..]);
      1 + FirstIndexWithId(rides[1..], id)
  }

  /** `[i for i in rides if i.id == id][0]`: the earliest ride with the id. */
  function FirstWithId(rides: seq<StravaRide>, id: Json): (r: StravaRide)
    requires id in IdsOf(rides)
    ensures r.id == id && r in rides
    ensures exists k :: 0 <= k < |rides| && rides[k] == r && forall j :: 0 <= j < k ==> rides[j].id != id
  {
    rides[FirstIndexWithId(rides, id)]
  }

  /** No ride left by the filter has the id. */
  lemma {:induction false} WithoutIdRemoves(rides: seq<StravaRide>, id: Json)
    ensures id !in IdsOf(WithoutId(rides, id))
  {
    if rides != [] {
      WithoutIdRemoves(rides[1..], id);
      var rest := WithoutId(rides[1..], id);
      if rides[0].id != id {
        assert IdsOf([rides[0]] + rest) == [rides[0].id] + IdsOf(rest);
      }
    }
  }

  /** Filtering by id is the same as filtering each part of a split list. */
  lemma {:induction false} WithoutIdAppend(a: seq<StravaRide>, b: seq<StravaRide>, id: Json)
    ensures WithoutId(a + b, id) == WithoutId(a, id) + WithoutId(b, id)
  {
    if a == [] {
      assert a + b == b;
    } else {
      var x, tail := a[0], a[1..];
      assert a + b == [x] + (tail + b) && a == [x] + tail;
      WithoutIdCons(x, tail + b, id);
      WithoutIdCons(x, tail, id);
      WithoutIdAppend(tail, b, id);
      var keep := if x.id == id then [] else [x];
      assert keep + (WithoutId(tail, id) + WithoutId(b, id)) == (keep + WithoutId(tail, id)) + WithoutId(b, id);
    }
  }

  lemma WithoutIdCons(x: StravaRide, rest: seq<StravaRide>, id: Json)
    ensures WithoutId([x] + rest, id) == (if x.id == id then [] else [x]) + WithoutId(rest, id)
  {
    assert ([x] + rest)[0] == x && ([x] + rest)[1..] == rest;
  }

  /** Filtering out an id no ride has changes nothing. */
  lemma {:induction false} WithoutAbsentId(rides: seq<StravaRide>, id: Json)
    requires id !in IdsOf(rides)
    ensures WithoutId(rides, id) == rides
  {
    if rides != [] {
      assert IdsOf(rides) == [rides[0].id] + IdsOf(rides[1..]);
      WithoutAbsentId(rides[1..], id);
    }
  }

  /** Filtering keeps exactly the rides with another id: every one of them
      survives and every id other than `id` is still listed. */
  lemma {:induction false} WithoutIdKeeps(rides: seq<StravaRide>, id: Json, x: StravaRide)
    requires x in rides && x.id != id
    ensures x in WithoutId(rides, id)
  {
    if rides[0] != x {
      WithoutIdKeeps(rides[1..], id, x);
    }
  }

  /** Every ride that survives the filter was in the list. */
  lemma {:induction false} WithoutIdFrom(rides: seq<StravaRide>, id: Json, x: StravaRide)
    requires x in WithoutId(rides, id)
    ensures x in rides && x.id != id
  {
    if rides[0].id == id || rides[0] != x {
      WithoutIdFrom(rides[1..], id, x);
    }
  }

  /** A ride added with a new id and then removed by that id leaves the list
      it was added to. */
  lemma AddThenRemove(rides: seq<StravaRide>, x: StravaRide)
    requires x.id !in IdsOf(rides)
    ensures WithoutId(rides + [x], x.id) == rides
  {
    WithoutIdAppend(rides, [x], x.id);
    WithoutAbsentId(rides, x.id);
    assert WithoutId([x], x.id) == [];
  }

  /** Every ride is an instance of the class `cls`. */
  predicate AllOfClass(rides: seq<StravaRide>, cls: RideClass)
  {
    forall i :: 0 <= i < |rides| ==> rides[i].cls == cls
  }

  /** Filtering by id keeps every ride of the given class an instance of it. */
  lemma WithoutIdOfClass(rides: seq<StravaRide>, id: Json, cls: RideClass)
    requires AllOfClass(rides, cls)
    ensures AllOfClass(WithoutId(rides, id), cls)
  {
    var r := WithoutId(rides, id);
    forall i | 0 <= i < |r| ensures r[i].cls == cls {
      WithoutIdFrom(rides, id, r[i]);
    }
  }

  /** No id is listed twice. */
  ghost predicate UniqueIds(rides: seq<StravaRide>)
  {
    forall i, j :: 0 <= i < j < |rides| ==> rides[i].id != rides[j].id
  }

  /** The reference for de-duplication: keep the first ride and drop the
      later rides with its id, then the same for the rest. */
  function Nub(rides: seq<StravaRide>): seq<StravaRide>
    decreases |rides|
  {
    if rides == [] then [] else [rides[0]] + Nub(WithoutId(rides[1..], rides[0].id))
  }

  lemma {:induction false} NubFrom(rides: seq<StravaRide>, x: StravaRide)
    requires x in Nub(rides)
    ensures x in rides
    decreases |rides|
  {
    var r := rides[0];
    if x != r {
      var rest := WithoutId(rides[1..], r.id);
      assert x in Nub(rest);
      NubFrom(rest, x);
      WithoutIdFrom(rides[1..], r.id, x);
    }
  }

  /** `Nub` leaves no id listed twice. */
  lemma {:induction false} NubUnique(rides: seq<StravaRide>)
    ensures UniqueIds(Nub(rides))
    decreases |rides|
  {
    if rides != [] {
      var r := rides[0];
      var rest := WithoutId(rides[1..], r.id);
      NubUnique(rest);
      var n := Nub(rest);
      var all := Nub(rides);
      assert all == [r] + n;
      forall j | 0 <= j < |n| ensures n[j].id != r.id {
        NubFrom(rest, n[j]);
        WithoutIdFrom(rides[1..], r.id, n[j]);
      }
      forall i, j | 0 <= i < j < |all| ensures all[i].id != all[j].id {
        assert all[j] == n[j - 1];
        if i > 0 { assert all[i] == n[i - 1]; }
      }
    }
  }

  /** `Nub` loses no id. */
  lemma {:induction false} NubKeepsIds(rides: seq<StravaRide>, i: nat)
    requires i < |rides|
    ensures rides[i].id in IdsOf(Nub(rides))
    decreases |rides|
  {
    var r := rides[0];
    var all := Nub(rides);
    assert all[0] == r;
    if rides[i].id == r.id {
      assert IdsOf(all)[0] == r.id;
    } else {
      var rest := WithoutId(rides[1..], r.id);
      WithoutIdKeeps(rides[1..], r.id, rides[i]);
      var k :| 0 <= k < |rest| && rest[k] == rides[i];
      NubKeepsIds(rest, k);
      var n := Nub(rest);
      var m :| 0 <= m < |n| && IdsOf(n)[m] == rides[i].id;
      assert all[m + 1] == n[m];
      assert IdsOf(all)[m + 1] == rides[i].id;
    }
  }

  /** A list whose ids are already unique is its own `Nub`. */
  lemma {:induction false} NubOfUnique(rides: seq<StravaRide>)
    requires UniqueIds(rides)
    ensures Nub(rides) == rides
    decreases |rides|
  {
    if rides != [] {
      var r := rides[0];
      assert UniqueIds(rides[1..]) by {
        forall i, j | 0 <= i < j < |rides[1..]| ensures rides[1..][i].id != rides[1..][j].id {
          assert rides[1..][i] == rides[i + 1] && rides[1..][j] == rides[j + 1];
        }
      }
      assert r.id !in IdsOf(rides[1..]) by {
        forall k | 0 <= k < |rides[1..]| ensures IdsOf(rides[1..])[k] != r.id {
          assert rides[1..][k] == rides[k + 1];
        }
      }
      WithoutAbsentId(rides[1..], r.id);
      NubOfUnique(rides[1..]);
      assert rides == [r] + rides[1..];
    }
  }

  // ----- the hubs' constructors, as functions of their arguments -----

  /** The ride a hub constructor builds from one argument, looking up `id`
      first; `None` marks a duplicate the de-duplicating constructor skips. */
  function ReadRecord(cls: RideClass, arg: Json, known: seq<Json>, dedup: bool): (r: Result<Option<StravaRide>>)
    ensures r.Ok? ==> arg.JDict? && "id" in arg.fields
    ensures r.Ok? && r.value.None? ==> dedup && arg.fields["id"] in known
    ensures r.Ok? && r.value.Some? ==> FromDict(cls, arg.fields) == Ok(r.value.value)
    ensures !arg.JDict? ==> r == Err(TypeError)
    ensures arg.JDict? && "id" !in arg.fields ==> r == Err(KeyError)
    ensures dedup && arg.JDict? && "id" in arg.fields && arg.fields["id"] in known ==> r == Ok(None)
    ensures arg.JDict? && "id" in arg.fields && !(dedup && arg.fields["id"] in known) ==>
              r == (match FromDict(cls, arg.fields)
                    case Ok(x) => Ok(Some(x))
                    case Err(_) => Err(KeyError))
  {
    match arg
    case JDict(d) =>
      if "id" !in d then Err(KeyError)
      else if dedup && d["id"] in known then Ok(None)
      else if "metadata" !in d || "metrics_dict" !in d then Err(KeyError)
      else Ok(Some(StravaRide(cls, d["id"], d["metadata"], d["metrics_dict"])))
    case _ => Err(TypeError)
  }

  /** The rides a hub constructor holds after taking `args` in order, having
      started from `acc`. */
  function BuildRides(cls: RideClass, acc: seq<StravaRide>, args: seq<Json>, dedup: bool): Result<seq<StravaRide>>
    decreases |args|
  {
    if args == [] then Ok(acc)
    else match ReadRecord(cls, args[0], IdsOf(acc), dedup)
      case Err(e) => Err(e)
      case Ok(None) => BuildRides(cls, acc, args[1..], dedup)
      case Ok(Some(x)) => BuildRides(cls, acc + [x], args[1..], dedup)
  }

  /** The dictionary forms of a list of rides, as `create_json_output` gives
      them. */
  function JsonOutput(rides: seq<StravaRide>): (out: seq<Json>)
    ensures |out| == |rides|
    ensures forall i :: 0 <= i < |rides| ==> out[i] == JDict(ToDict(rides[i]))
  {
    if rides == [] then [] else [JDict(ToDict(rides[0]))] + JsonOutput(rides[1..])
  }

  /** The rides that `args` describe, when every argument is a dictionary
      holding the three keys. */
  function RecordRides(cls: RideClass, args: seq<Json>): (r: Result<seq<StravaRide>>)
    ensures r.Ok? ==> |r.value| == |args|
  {
    if args == [] then Ok([])
    else if !args[0].JDict? || !(RideKeys <= args[0].fields.Keys) then Err(KeyError)
    else match RecordRides(cls, args[1..])
      case Err(e) => Err(e)
      case Ok(rest) => Ok([StravaRide(cls, args[0].fields["id"], args[0].fields["metadata"], args[0].fields["metrics_dict"])] + rest)
  }

  /** Rides whose ids are none of `avoid`. */
  function Exclude(rides: seq<StravaRide>, avoid: seq<Json>): (r: seq<StravaRide>)
  {
    if rides == [] then []
    else if rides[0].id in avoid then Exclude(rides[1..], avoid)
    else [rides[0]] + Exclude(rides[1..], avoid)
  }

  lemma {:induction false} ExcludeMore(rides: seq<StravaRide>, avoid: seq<Json>, id: Json)
    ensures WithoutId(Exclude(rides, avoid), id) == Exclude(rides, avoid + [id])
  {
    if rides != [] {
      ExcludeMore(rides[1..], avoid, id);
    }
  }

  lemma {:induction false} ExcludeNothing(rides: seq<StravaRide>)
    ensures Exclude(rides, []) == rides
  {
    if rides != [] { ExcludeNothing(rides[1..]); }
  }

  lemma RecordRidesCons(cls: RideClass, args: seq<Json>, rs: seq<StravaRide>)
    requires RecordRides(cls, args) == Ok(rs) && args != []
    ensures args[0].JDict? && RideKeys <= args[0].fields.Keys
    ensures RecordRides(cls, args[1..]) == Ok(rs[1..])
    ensures FromDict(cls, args[0].fields) == Ok(rs[0])
  {
  }

  lemma NubCons(x: StravaRide, e: seq<StravaRide>)
    ensures Nub([x] + e) == [x] + Nub(WithoutId(e, x.id))
  {
    assert ([x] + e)[1..] == e;
  }

  lemma BuildStep(cls: RideClass, acc: seq<StravaRide>, args: seq<Json>, rs: seq<StravaRide>, dedup: bool)
    requires RecordRides(cls, args) == Ok(rs) && args != []
    ensures dedup && rs[0].id in IdsOf(acc) ==> BuildRides(cls, acc, args, dedup) == BuildRides(cls, acc, args[1..], dedup)
    ensures !(dedup && rs[0].id in IdsOf(acc)) ==>
              BuildRides(cls, acc, args, dedup) == BuildRides(cls, acc + [rs[0]], args[1..], dedup)
  {
    RecordRidesCons(cls, args, rs);
  }

  lemma DedupSkipStep(cls: RideClass, acc: seq<StravaRide>, args: seq<Json>, rs: seq<StravaRide>)
    requires RecordRides(cls, args) == Ok(rs) && args != [] && rs[0].id in IdsOf(acc)
    requires BuildRides(cls, acc, args[1..], true) == Ok(acc + Nub(Exclude(rs[1..], IdsOf(acc))))
    ensures BuildRides(cls, acc, args, true) == Ok(acc + Nub(Exclude(rs, IdsOf(acc))))
  {
    BuildStep(cls, acc, args, rs, true);
  }

  lemma IdsOfAppend(rides: seq<StravaRide>, x: StravaRide)
    ensures IdsOf(rides + [x]) == IdsOf(rides) + [x.id]
  {
  }

  lemma ExcludeTake(rides: seq<StravaRide>, avoid: seq<Json>)
    requires rides != [] && rides[0].id !in avoid
    ensures Exclude(rides, avoid) == [rides[0]] + Exclude(rides[1..], avoid)
  {
  }

  lemma ConcatAssoc(a: seq<StravaRide>, b: seq<StravaRide>, c: seq<StravaRide>)
    ensures a + b + c == a + (b + c)
  {
  }

  lemma NubExcludeCons(rides: seq<StravaRide>, avoid: seq<Json>)
    requires rides != [] && rides[0].id !in avoid
    ensures Nub(Exclude(rides, avoid)) == [rides[0]] + Nub(Exclude(rides[1..], avoid + [rides[0].id]))
  {
    ExcludeTake(rides, avoid);
    NubCons(rides[0], Exclude(rides[1..], avoid));
    ExcludeMore(rides[1..], avoid, rides[0].id);
  }

  lemma TakeStepTail(cls: RideClass, acc: seq<StravaRide>, args: seq<Json>, rs: seq<StravaRide>)
    requires RecordRides(cls, args) == Ok(rs) && args != [] && rs[0].id !in IdsOf(acc)
    requires BuildRides(cls, acc + [rs[0]], args[1..], true) == Ok(acc + [rs[0]] + Nub(Exclude(rs[1..], IdsOf(acc + [rs[0]]))))
    ensures BuildRides(cls, acc, args, true) == Ok(acc + [rs[0]] + Nub(Exclude(rs[1..], IdsOf(acc) + [rs[0].id])))
  {
    BuildStep(cls, acc, args, rs, true);
    IdsOfAppend(acc, rs[0]);
  }

  lemma DedupTakeStep(cls: RideClass, acc: seq<StravaRide>, args: seq<Json>, rs: seq<StravaRide>)
    requires RecordRides(cls, args) == Ok(rs) && args != [] && rs[0].id !in IdsOf(acc)
    requires BuildRides(cls, acc + [rs[0]], args[1..], true) == Ok(acc + [rs[0]] + Nub(Exclude(rs[1..], IdsOf(acc + [rs[0]]))))
    ensures BuildRides(cls, acc, args, true) == Ok(acc + Nub(Exclude(rs, IdsOf(acc))))
  {
    TakeStepTail(cls, acc, args, rs);
    NubExcludeCons(rs, IdsOf(acc));
    ConcatAssoc(acc, [rs[0]], Nub(Exclude(rs[1..], IdsOf(acc) + [rs[0].id])));
  }

  lemma {:induction false} DedupIsNubFrom(cls: RideClass, acc: seq<StravaRide>, args: seq<Json>, rs: seq<StravaRide>)
    requires RecordRides(cls, args) == Ok(rs)
    ensures BuildRides(cls, acc, args, true) == Ok(acc + Nub(Exclude(rs, IdsOf(acc))))
    decreases |args|
  {
    if args == [] {
      assert acc + [] == acc;
    } else {
      RecordRidesCons(cls, args, rs);
      if rs[0].id in IdsOf(acc) {
        DedupIsNubFrom(cls, acc, args[1..], rs[1..]);
        DedupSkipStep(cls, acc, args, rs);
      } else {
        DedupIsNubFrom(cls, acc + [rs[0]], args[1..], rs[1..]);
        DedupTakeStep(cls, acc, args, rs);
      }
    }
  }

  /** The de-duplicating constructor keeps, in input order, the first ride
      given for each id and skips the later ones. */
  lemma DedupIsNub(cls: RideClass, args: seq<Json>, rs: seq<StravaRide>)
    requires RecordRides(cls, args) == Ok(rs)
    ensures BuildRides(cls, [], args, true) == Ok(Nub(rs))
  {
    DedupIsNubFrom(cls, [], args, rs);
    ExcludeNothing(rs);
    assert IdsOf([]) == [];
    assert [] + Nub(rs) == Nub(rs);
  }

  /** The constructor without de-duplication appends every argument. */
  lemma {:induction false} AppendAllFrom(cls: RideClass, acc: seq<StravaRide>, args: seq<Json>, rs: seq<StravaRide>)
    requires RecordRides(cls, args) == Ok(rs)
    ensures BuildRides(cls, acc, args, false) == Ok(acc + rs)
    decreases |args|
  {
    if args == [] {
      assert acc + [] == acc;
    } else {
      RecordRidesCons(cls, args, rs);
      BuildStep(cls, acc, args, rs, false);
      var x := rs[0];
      AppendAllFrom(cls, acc + [x], args[1..], rs[1..]);
      assert acc + [x] + rs[1..] == acc + rs;
    }
  }

  /** A ride's dictionary form holds the three keys and reads back as the
      same ride. */
  lemma RecordRideOfDict(ride: StravaRide, cls: RideClass)
    requires ride.cls == cls
    ensures var d := ToDict(ride);
            RideKeys <= d.Keys && StravaRide(cls, d["id"], d["metadata"], d["metrics_dict"]) == ride
  {
  }

  lemma {:induction false} RecordRidesOfJsonOutput(rides: seq<StravaRide>, cls: RideClass)
    requires AllOfClass(rides, cls)
    ensures RecordRides(cls, JsonOutput(rides)) == Ok(rides)
  {
    if rides != [] {
      var out := JsonOutput(rides);
      assert out == [JDict(ToDict(rides[0]))] + JsonOutput(rides[1..]);
      assert out[1..] == JsonOutput(rides[1..]);
      assert AllOfClass(rides[1..], cls) by {
        forall i | 0 <= i < |rides[1..]| ensures rides[1..][i].cls == cls {
          assert rides[1..][i] == rides[i + 1];
        }
      }
      RecordRidesOfJsonOutput(rides[1..], cls);
      RecordRideOfDict(rides[0], cls);
      assert rides == [rides[0]] + rides[1..];
    }
  }

  /** Exporting rides with unique ids and reading the export back through
      the de-duplicating constructor gives the same rides in the same order. */
  lemma JsonRoundTrip(rides: seq<StravaRide>)
    requires UniqueIds(rides)
    requires AllOfClass(rides, BaseRide)
    ensures BuildRides(BaseRide, [], JsonOutput(rides), true) == Ok(rides)
  {
    RecordRidesOfJsonOutput(rides, BaseRide);
    DedupIsNub(BaseRide, JsonOutput(rides), rides);
    NubOfUnique(rides);
  }

  /** A constructor only ever appends: the rides it started from stay in
      front, and every ride it adds is an instance of `cls`. */
  lemma {:induction false} BuildRidesExtends(cls: RideClass, acc: seq<StravaRide>, args: seq<Json>, dedup: bool)
    requires BuildRides(cls, acc, args, dedup).Ok?
    ensures |acc| <= |BuildRides(cls, acc, args, dedup).value|
    ensures BuildRides(cls, acc, args, dedup).value[..|acc|] == acc
    ensures forall i :: |acc| <= i < |BuildRides(cls, acc, args, dedup).value| ==>
              BuildRides(cls, acc, args, dedup).value[i].cls == cls
    decreases |args|
  {
    if args != [] {
      match ReadRecord(cls, args[0], IdsOf(acc), dedup)
      case Ok(None) =>
        BuildRidesExtends(cls, acc, args[1..], dedup);
      case Ok(Some(x)) =>
        BuildRidesExtends(cls, acc + [x], args[1..], dedup);
        assert (acc + [x])[..|acc|] == acc;
    }
  }

  /** The de-duplicating constructor never lists an id twice when the rides
      it starts from do not. */
  lemma {:induction false} BuildRidesUnique(cls: RideClass, acc: seq<StravaRide>, args: seq<Json>)
    requires UniqueIds(acc)
    requires BuildRides(cls, acc, args, true).Ok?
    ensures UniqueIds(BuildRides(cls, acc, args, true).value)
    decreases |args|
  {
    if args != [] {
      match ReadRecord(cls, args[0], IdsOf(acc), true)
      case Ok(None) =>
        BuildRidesUnique(cls, acc, args[1..]);
      case Ok(Some(x)) =>
        assert x.id !in IdsOf(acc);
        var acc' := acc + [x];
        assert UniqueIds(acc') by {
          forall i, j | 0 <= i < j < |acc'| ensures acc'[i].id != acc'[j].id {
            if j == |acc| {
              assert IdsOf(acc)[i] == acc[i].id;
            }
          }
        }
        BuildRidesUnique(cls, acc', args[1..]);
    }
  }

  /** The constructor without de-duplication succeeds exactly when every
      argument is a dictionary holding the three keys. */
  lemma {:induction false} AppendAllSucceeds(cls: RideClass, acc: seq<StravaRide>, args: seq<Json>)
    ensures BuildRides(cls, acc, args, false).Ok? <==> RecordRides(cls, args).Ok?
    decreases |args|
  {
    if args != [] {
      match ReadRecord(cls, args[0], IdsOf(acc), false)
      case Err(_) =>
        assert !args[0].JDict? || !(RideKeys <= args[0].fields.Keys);
      case Ok(None) =>
      case Ok(Some(x)) =>
        AppendAllSucceeds(cls, acc + [x], args[1..]);
    }
  }
}
