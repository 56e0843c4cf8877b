/** The part of `modules/objects/RideDataProcessor.py` that decides which
    activities become rides and what a new ride holds. The activity list and
    the streams of each ride come from the Strava API; here they are
    parameters, as are `CURRENT_FTP` and the power curve of a ride. */
module RideDataProcessing {
  import opened Wrappers
  import opened JsonValues
  import opened Rides
  import opened Hub

  // ----- choosing the new rides -----

  /** Whether the activity reports a power meter: a truthy `device_watts`. */
  predicate HasPowerMeter(activity: Json)
    requires activity.JDict?
  {
    Truthy(DictGet(activity.fields, "device_watts"))
  }

  /** One step of the comprehension over the activities: `activity.get`
      raises `AttributeError` on anything but a dictionary, and an activity
      with a power meter but no `id` raises `KeyError`. */
  function PowerCandidate(activity: Json): (r: Result<Option<Json>>)
    ensures r.Err? <==> !activity.JDict? || (HasPowerMeter(activity) && "id" !in activity.fields)
    ensures r.Err? ==> r.error == (if activity.JDict? then KeyError else AttributeError)
    ensures r.Ok? ==> (r.value.Some? <==> HasPowerMeter(activity))
    ensures r == Ok(None) || r.Err? || r == Ok(Some(activity.fields["id"]))
  {
    if !activity.JDict? then Err(AttributeError)
    else if !HasPowerMeter(activity) then Ok(None)
    else if "id" !in activity.fields then Err(KeyError)
    else Ok(Some(activity.fields["id"]))
  }

  /** The values present, in order. */
  function Somes<T(==, !new)>(xs: seq<Option<T>>): (r: seq<T>)
    ensures |r| <= |xs|
    ensures forall x :: x in r <==> Some(x) in xs
  {
    if xs == [] then []
    else
      var init := xs[..|xs| - 1];
      assert xs == init + [xs[|xs| - 1]];
      Somes(init) + (if xs[|xs| - 1].Some? then [xs[|xs| - 1].value] else [])
  }

  /** The places of the present values: the value at each of them is the
      matching entry of `Somes(xs)`. */
  function SomePlaces<T(==, !new)>(xs: seq<Option<T>>): (ks: seq<nat>)
    ensures |ks| == |Somes(xs)|
    ensures forall j :: 0 <= j < |ks| ==> ks[j] < |xs| && xs[ks[j]] == Some(Somes(xs)[j])
  {
    if xs == [] then []
    else
      var init := xs[..|xs| - 1];
      var last := xs[|xs| - 1];
      var rest := SomePlaces(init);
      assert Somes(xs) == Somes(init) + (if last.Some? then [last.value] else []);
      assert forall j :: 0 <= j < |rest| ==> xs[rest[j]] == init[rest[j]];
      if last.Some? then rest + [|xs| - 1] else rest
  }

  /** The places increase. */
  lemma {:induction false} SomePlacesIncrease<T(!new)>(xs: seq<Option<T>>)
    ensures forall i, j :: 0 <= i < j < |SomePlaces(xs)| ==> SomePlaces(xs)[i] < SomePlaces(xs)[j]
  {
    if xs != [] {
      var init := xs[..|xs| - 1];
      SomePlacesIncrease(init);
      var rest := SomePlaces(init);
      assert SomePlaces(xs) == if xs[|xs| - 1].Some? then rest + [|xs| - 1] else rest;
    }
  }

  /** Every place with a value is among the places. */
  lemma SomePlacesComplete<T(!new)>(xs: seq<Option<T>>)
    ensures forall k :: 0 <= k < |xs| && xs[k].Some? ==> k in SomePlaces(xs)
  {
    forall k | 0 <= k < |xs| && xs[k].Some? ensures k in SomePlaces(xs) {
      SomePlaceListed(xs, k);
    }
  }

  lemma {:induction false} SomePlaceListed<T(!new)>(xs: seq<Option<T>>, k: nat)
    requires k < |xs| && xs[k].Some?
    ensures k in SomePlaces(xs)
  {
    var init := xs[..|xs| - 1];
    var rest := SomePlaces(init);
    assert SomePlaces(xs) == if xs[|xs| - 1].Some? then rest + [|xs| - 1] else rest;
    if k < |xs| - 1 {
      assert init[k] == xs[k];
      SomePlaceListed(init, k);
    }
  }

  /** `ride_ids_with_power_meter_data`: the ids of the activities with a
      power meter, or the error of the first activity that raises. */
  function CandidateIds(activities: seq<Json>): (r: Result<seq<Json>>)
    ensures r.Err? <==> exists k :: 0 <= k < |activities| && PowerCandidate(activities[k]).Err?
    ensures r.Err? ==> exists k :: 0 <= k < |activities| && PowerCandidate(activities[k]) == Err(r.error) &&
                                   forall j :: 0 <= j < k ==> PowerCandidate(activities[j]).Ok?
    ensures r.Ok? ==> forall x :: x in r.value <==>
              exists k :: 0 <= k < |activities| && activities[k].JDict? && HasPowerMeter(activities[k]) &&
                          "id" in activities[k].fields && activities[k].fields["id"] == x
  {
    var picks :- MapResults(activities, PowerCandidate);
    assert forall x :: Some(x) in picks <==>
             exists k :: 0 <= k < |activities| && activities[k].JDict? && HasPowerMeter(activities[k]) &&
                         "id" in activities[k].fields && activities[k].fields["id"] == x by {
      forall x ensures Some(x) in picks ==>
               exists k :: 0 <= k < |activities| && activities[k].JDict? && HasPowerMeter(activities[k]) &&
                           "id" in activities[k].fields && activities[k].fields["id"] == x {
        if Some(x) in picks {
          var k :| 0 <= k < |picks| && picks[k] == Some(x);
          assert PowerCandidate(activities[k]) == Ok(Some(x));
        }
      }
      forall x, k | 0 <= k < |activities| && activities[k].JDict? && HasPowerMeter(activities[k]) &&
                    "id" in activities[k].fields && activities[k].fields["id"] == x
        ensures Some(x) in picks
      {
        assert PowerCandidate(activities[k]) == Ok(picks[k]);
      }
    }
    Ok(Somes(picks))
  }

  /** The candidate ids follow the activities' order: id `j` belongs to
      activity `ks[j]`, the places increase, and every activity with a power
      meter has its place. */
  lemma CandidateIdsInOrder(activities: seq<Json>)
    requires CandidateIds(activities).Ok?
    ensures var ids := CandidateIds(activities).value;
            exists ks: seq<nat> ::
              |ks| == |ids| &&
              (forall j :: 0 <= j < |ks| ==>
                 ks[j] < |activities| && activities[ks[j]].JDict? && HasPowerMeter(activities[ks[j]]) &&
                 "id" in activities[ks[j]].fields && activities[ks[j]].fields["id"] == ids[j]) &&
              (forall i, j :: 0 <= i < j < |ks| ==> ks[i] < ks[j]) &&
              (forall k :: 0 <= k < |activities| && activities[k].JDict? && HasPowerMeter(activities[k]) ==> k in ks)
  {
    var picks := MapResults(activities, PowerCandidate).value;
    assert CandidateIds(activities).value == Somes(picks);
    PlacesOfCandidates(activities, picks);
  }

  lemma PlacesOfCandidates(activities: seq<Json>, picks: seq<Option<Json>>)
    requires |picks| == |activities| && forall k :: 0 <= k < |activities| ==> PowerCandidate(activities[k]) == Ok(picks[k])
    ensures var ks := SomePlaces(picks);
            var ids := Somes(picks);
            |ks| == |ids| &&
            (forall j :: 0 <= j < |ks| ==>
               ks[j] < |activities| && activities[ks[j]].JDict? && HasPowerMeter(activities[ks[j]]) &&
               "id" in activities[ks[j]].fields && activities[ks[j]].fields["id"] == ids[j]) &&
            (forall i, j :: 0 <= i < j < |ks| ==> ks[i] < ks[j]) &&
            (forall k :: 0 <= k < |activities| && activities[k].JDict? && HasPowerMeter(activities[k]) ==> k in ks)
  {
    var ks := SomePlaces(picks);
    var ids := Somes(picks);
    SomePlacesIncrease(picks);
    SomePlacesComplete(picks);
    forall j | 0 <= j < |ks|
      ensures ks[j] < |activities| && activities[ks[j]].JDict? && HasPowerMeter(activities[ks[j]]) &&
              "id" in activities[ks[j]].fields && activities[ks[j]].fields["id"] == ids[j]
    {
      assert PowerCandidate(activities[ks[j]]) == Ok(Some(ids[j]));
    }
  }

  /** `new_ride_ids`: the candidates whose id the hub does not hold yet, in
      candidate order and with repeated candidates kept; `held` is the hub's
      `ride_ids`. */
  function NewIds(candidates: seq<Json>, held: seq<Json>): (r: seq<Json>)
    ensures |r| <= |candidates|
    ensures forall x {:trigger x in r} :: x in r <==> x in candidates && x !in held
    ensures forall x {:trigger multiset(r)[x]} :: multiset(r)[x] == if x in held then 0 else multiset(candidates)[x]
  {
    if candidates == [] then []
    else
      assert candidates == [candidates[0]] + candidates[1..];
      (if candidates[0] in held then [] else [candidates[0]]) + NewIds(candidates[1..], held)
  }

  /** The filter looks at the first candidate and then at the rest. */
  lemma NewIdsCons(x: Json, rest: seq<Json>, held: seq<Json>)
    ensures NewIds([x] + rest, held) == (if x in held then [] else [x]) + NewIds(rest, held)
  {
    assert ([x] + rest)[0] == x && ([x] + rest)[1..] == rest;
  }

  /** The filter works candidate by candidate, so it keeps the candidates'
      order: filtering two runs is filtering each. */
  lemma {:induction false} NewIdsAppend(a: seq<Json>, b: seq<Json>, held: seq<Json>)
    ensures NewIds(a + b, held) == NewIds(a, held) + NewIds(b, held)
  {
    if a == [] {
      assert a + b == b;
    } else {
      var x := a[0];
      var head := if x in held then [] else [x];
      assert a == [x] + a[1..];
      assert a + b == [x] + (a[1..] + b);
      NewIdsCons(x, a[1..], held);
      NewIdsCons(x, a[1..] + b, held);
      NewIdsAppend(a[1..], b, held);
      assert head + (NewIds(a[1..], held) + NewIds(b, held)) == (head + NewIds(a[1..], held)) + NewIds(b, held);
    }
  }

  /** When the hub holds none of the candidates, all of them are new, in
      their order, repeats included. */
  lemma {:induction false} NewIdsOfFresh(candidates: seq<Json>, held: seq<Json>)
    requires forall k :: 0 <= k < |candidates| ==> candidates[k] !in held
    ensures NewIds(candidates, held) == candidates
  {
    if candidates != [] {
      NewIdsOfFresh(candidates[1..], held);
      assert candidates == [candidates[0]] + candidates[1..];
    }
  }

  // ----- building one ride -----

  /** `next(activity for activity in all_activities if activity['id'] ==
      ride_id)`: the first activity with the id. Indexing anything but a
      dictionary raises `TypeError`, an activity without `id` raises
      `KeyError`, and running out of activities raises `StopIteration`. */
  function FirstActivityWithId(activities: seq<Json>, id: Json): (r: Result<Json>)
    ensures r.Ok? ==> r.value.JDict? && "id" in r.value.fields && r.value.fields["id"] == id
    ensures r.Ok? ==> exists k :: 0 <= k < |activities| && activities[k] == r.value &&
                                  forall j :: 0 <= j < k ==> activities[j].JDict? && "id" in activities[j].fields &&
                                                             activities[j].fields["id"] != id
    ensures r == Err(StopIteration) <==>
              forall k :: 0 <= k < |activities| ==> activities[k].JDict? && "id" in activities[k].fields &&
                                                    activities[k].fields["id"] != id
    ensures r.Err? ==> r.error in {StopIteration, TypeError, KeyError}
  {
    if activities == [] then Err(StopIteration)
    else
      var a := activities[0];
      if !a.JDict? then Err(TypeError)
      else if "id" !in a.fields then Err(KeyError)
      else if a.fields["id"] == id then Ok(a)
      else
        var rest := FirstActivityWithId(activities[1..], id);
        assert forall k :: 1 <= k < |activities| ==> activities[k] == activities[1..][k - 1];
        if rest.Ok? then
          var k :| 0 <= k < |activities[1..]| && activities[1..][k] == rest.value &&
                   forall j :: 0 <= j < k ==> activities[1..][j].JDict? && "id" in activities[1..][j].fields &&
                                              activities[1..][j].fields["id"] != id;
          assert activities[k + 1] == rest.value;
          rest
        else rest
  }

  /** A candidate id is always found: when the candidates were read without
      error, looking one of them up either finds its activity or meets an
      activity without a power meter and without an `id` first. */
  lemma {:induction false} CandidateIsFound(activities: seq<Json>, id: Json)
    requires CandidateIds(activities).Ok? && id in CandidateIds(activities).value
    ensures FirstActivityWithId(activities, id).Ok? || FirstActivityWithId(activities, id) == Err(KeyError)
  {
    var k :| 0 <= k < |activities| && activities[k].JDict? && HasPowerMeter(activities[k]) &&
             "id" in activities[k].fields && activities[k].fields["id"] == id;
    assert forall j :: 0 <= j < |activities| ==> activities[j].JDict? by {
      forall j | 0 <= j < |activities| ensures activities[j].JDict? {
        assert PowerCandidate(activities[j]).Ok?;
      }
    }
    SearchMeetsNoStop(activities, id, k);
  }

  lemma {:induction false} SearchMeetsNoStop(activities: seq<Json>, id: Json, k: nat)
    requires k < |activities| && activities[k].JDict? && "id" in activities[k].fields && activities[k].fields["id"] == id
    requires forall j :: 0 <= j < |activities| ==> activities[j].JDict?
    ensures FirstActivityWithId(activities, id).Ok? || FirstActivityWithId(activities, id) == Err(KeyError)
  {
    var a := activities[0];
    if "id" in a.fields && a.fields["id"] != id {
      assert k > 0;
      assert forall j :: 0 <= j < |activities[1..]| ==> activities[1..][j] == activities[j + 1];
      SearchMeetsNoStop(activities[1..], id, k - 1);
    }
  }

  /** `{key: array['data'] for key, array in response.json().items()}`: the
      `data` of every stream. A response that is not a dictionary raises
      `AttributeError`; a stream that is not a dictionary raises
      `TypeError`, and one without `data` `KeyError`. */
  function StreamData(response: Json): (r: Result<Dict>)
    ensures r.Err? <==>
              (!response.JDict? ||
               exists key :: key in response.fields && !(response.fields[key].JDict? && "data" in response.fields[key].fields))
    ensures r.Ok? ==>
              (r.value.Keys == response.fields.Keys &&
               forall key :: key in r.value ==> r.value[key] == response.fields[key].fields["data"])
  {
    if !response.JDict? then Err(AttributeError)
    else if exists key :: key in response.fields && !response.fields[key].JDict? then Err(TypeError)
    else if exists key :: key in response.fields && "data" !in response.fields[key].fields then Err(KeyError)
    else Ok(map key | key in response.fields :: response.fields[key].fields["data"])
  }

  /** The ride `process_single_ride` ends up holding: an instance of `cls`
      with the requested id, the first matching activity with `ftp` set to
      `currentFtp` as its metadata, and the streams' data with the power
      curve as its metrics. `response` is what the streams request for the
      ride returned; `powerCurve` gives the curve of a ride's streams. */
  function ProcessedRide(cls: RideClass, activities: seq<Json>, id: Json, response: Json,
                         powerCurve: Json -> Json, currentFtp: Json): (r: Result<StravaRide>)
    ensures r.Err? <==> FirstActivityWithId(activities, id).Err? || StreamData(response).Err?
    ensures r.Err? ==> r.error == if FirstActivityWithId(activities, id).Err? then FirstActivityWithId(activities, id).error
                                  else StreamData(response).error
    ensures r.Ok? ==>
              var activity := FirstActivityWithId(activities, id).value;
              var streams := StreamData(response).value;
              r.value.cls == cls && r.value.id == id &&
              r.value.metadata.JDict? && r.value.metadata.fields == activity.fields["ftp" := currentFtp] &&
              r.value.metricsDict.JDict? &&
              r.value.metricsDict.fields == streams["power_curve" := powerCurve(JDict(streams))]
  {
    var activity :- FirstActivityWithId(activities, id);
    var streams :- StreamData(response);
    Ok(StravaRide(cls, id, JDict(activity.fields["ftp" := currentFtp]),
                  JDict(streams["power_curve" := powerCurve(JDict(streams))])))
  }

  /** Processing of one id, as a function value, with the `Base.StravaRide`
      class that the hub accepts. */
  function ProcessWith(activities: seq<Json>, fetch: Json -> Json, powerCurve: Json -> Json, currentFtp: Json)
    : Json -> Result<StravaRide>
  {
    id => ProcessedRide(BaseRide, activities, id, fetch(id), powerCurve, currentFtp)
  }

  /** The module imports the `StravaRide` of `StravaRide.py`, a different
      class from the `Base.StravaRide` that `add_ride` checks for, so every
      ride it builds is rejected with `ValueError`. */
  lemma ImportedClassIsRejected(activities: seq<Json>, id: Json, response: Json,
                                powerCurve: Json -> Json, currentFtp: Json)
    requires ProcessedRide(StandaloneRide, activities, id, response, powerCurve, currentFtp).Ok?
    ensures ValidateStravaRide(BaseRide, RideObject(ProcessedRide(StandaloneRide, activities, id, response,
                                                                  powerCurve, currentFtp).value)) == Fail(ValueError)
    ensures ProcessedRide(BaseRide, activities, id, response, powerCurve, currentFtp).Ok?
    ensures ValidateStravaRide(BaseRide, RideObject(ProcessedRide(BaseRide, activities, id, response,
                                                                  powerCurve, currentFtp).value)) == Pass
  {
  }

  /** A concrete ride that the code as written cannot add: one powered
      activity with id 1 and an empty streams response. */
  lemma ImportedClassRejectsExample()
    ensures var activities := [JDict(map["id" := JInt(1), "device_watts" := JBool(true)])];
            var ride := ProcessedRide(StandaloneRide, activities, JInt(1), JDict(map[]), _ => JList([]), JInt(250));
            ride.Ok? && ValidateStravaRide(BaseRide, RideObject(ride.value)) == Fail(ValueError)
  {
    var activities := [JDict(map["id" := JInt(1), "device_watts" := JBool(true)])];
    assert FirstActivityWithId(activities, JInt(1)) == Ok(activities[0]);
    assert StreamData(JDict(map[])) == Ok(map[]);
  }

  /** `MapResults` over one more element that succeeds. */
  lemma MapResultsSnoc<A, B>(xs: seq<A>, x: A, f: A -> Result<B>)
    requires MapResults(xs, f).Ok? && f(x).Ok?
    ensures MapResults(xs + [x], f) == Ok(MapResults(xs, f).value + [f(x).value])
  {
    var ys := xs + [x];
    assert forall k :: 0 <= k < |xs| ==> ys[k] == xs[k];
    assert ys[|xs|] == x;
    var r := MapResults(ys, f);
    assert r.Ok?;
    assert r.value == MapResults(xs, f).value + [f(x).value];
  }

  /** One more processed id extends the processed prefix by its ride. */
  lemma ProcessedPrefixGrows<B>(ids: seq<Json>, i: nat, step: Json -> Result<B>, before: seq<B>, now: seq<B>)
    requires i < |ids| && MapResults(ids[..i], step).Ok? && step(ids[i]).Ok?
    requires now == before + MapResults(ids[..i], step).value + [step(ids[i]).value]
    ensures MapResults(ids[..i + 1], step).Ok? && now == before + MapResults(ids[..i + 1], step).value
  {
    MapResultsSnoc(ids[..i], ids[i], step);
    assert ids[..i + 1] == ids[..i] + [ids[i]];
  }

  /** The processor of `RideDataProcessor.py`. The API token and headers
      only serve the requests, which are parameters here. */
  class RideDataProcessor {
    const rideHub: RideHub

    constructor(hub: RideHub)
      ensures rideHub == hub
    {
      rideHub := hub;
    }

    /** `process_single_ride` as written: the ride is built from the
        imported `StravaRide` class, so `add_ride` raises `ValueError` and
        the hub never changes. */
    method ProcessSingleRideAsWritten(rideId: Json, activities: seq<Json>, fetch: Json -> Json,
                                      powerCurve: Json -> Json, currentFtp: Json) returns (o: Outcome)
      modifies rideHub
      ensures o.Fail?
      ensures FirstActivityWithId(activities, rideId).Err? ==> o == Fail(FirstActivityWithId(activities, rideId).error)
      ensures FirstActivityWithId(activities, rideId).Ok? && StreamData(fetch(rideId)).Err? ==>
                o == Fail(StreamData(fetch(rideId)).error)
      ensures FirstActivityWithId(activities, rideId).Ok? && StreamData(fetch(rideId)).Ok? ==> o == Fail(ValueError)
      ensures rideHub.rideList == old(rideHub.rideList) && rideHub.pointer == old(rideHub.pointer)
    {
      var response := fetch(rideId);
      var activity := FirstActivityWithId(activities, rideId);
      if activity.Err? {
        return Fail(activity.error);
      }
      var streams := StreamData(response);
      if streams.Err? {
        return Fail(streams.error);
      }
      var ride := StravaRide(StandaloneRide, rideId, activity.value, JDict(streams.value));
      o := rideHub.AddRide(RideObject(ride));
    }

    /** `process_single_ride` with the class the hub accepts: looks the
        activity up, reads the streams, adds the ride, and then sets its
        power curve and its `ftp` in place. */
    method ProcessSingleRide(rideId: Json, activities: seq<Json>, fetch: Json -> Json,
                             powerCurve: Json -> Json, currentFtp: Json) returns (o: Outcome)
      modifies rideHub
      ensures var ride := ProcessWith(activities, fetch, powerCurve, currentFtp)(rideId);
              (ride.Err? ==> o == Fail(ride.error) && rideHub.rideList == old(rideHub.rideList)) &&
              (ride.Ok? ==> o == Pass && rideHub.rideList == old(rideHub.rideList) + [ride.value])
      ensures rideHub.pointer == old(rideHub.pointer)
    {
      var response := fetch(rideId);
      ghost var expected := ProcessedRide(BaseRide, activities, rideId, response, powerCurve, currentFtp);
      assert ProcessWith(activities, fetch, powerCurve, currentFtp)(rideId) == expected;
      var activity := FirstActivityWithId(activities, rideId);
      if activity.Err? {
        return Fail(activity.error);
      }
      var streams := StreamData(response);
      if streams.Err? {
        return Fail(streams.error);
      }
      var ride := StravaRide(BaseRide, rideId, activity.value, JDict(streams.value));
      o := rideHub.AddRide(RideObject(ride));
      assert o == Pass;
      var curve := powerCurve(JDict(streams.value));
      var last := |rideHub.rideList| - 1;
      rideHub.rideList := rideHub.rideList[last := rideHub.rideList[last].(
        metricsDict := JDict(streams.value["power_curve" := curve]),
        metadata := JDict(activity.value.fields["ftp" := currentFtp]))];
      assert rideHub.rideList[last] == expected.value;
    }

    /** The processing loop with the corrected `ProcessSingleRide`: each id
        in order, stopping at the first error, which leaves the rides
        processed before it in the hub. */
    method ProcessRides(ids: seq<Json>, activities: seq<Json>, fetch: Json -> Json,
                        powerCurve: Json -> Json, currentFtp: Json) returns (o: Outcome)
      modifies rideHub
      ensures rideHub.pointer == old(rideHub.pointer)
      ensures var step := ProcessWith(activities, fetch, powerCurve, currentFtp);
              (o.Pass? ==> MapResults(ids, step).Ok? &&
                           rideHub.rideList == old(rideHub.rideList) + MapResults(ids, step).value) &&
              (o.Fail? ==> exists k :: 0 <= k < |ids| && MapResults(ids[..k], step).Ok? &&
                             step(ids[k]) == Err(o.error) &&
                             rideHub.rideList == old(rideHub.rideList) + MapResults(ids[..k], step).value)
    {
      ghost var step := ProcessWith(activities, fetch, powerCurve, currentFtp);
      var i := 0;
      while i < |ids|
        invariant 0 <= i <= |ids|
        invariant rideHub.pointer == old(rideHub.pointer)
        invariant MapResults(ids[..i], step).Ok?
        invariant rideHub.rideList == old(rideHub.rideList) + MapResults(ids[..i], step).value
      {
        var one := ProcessSingleRide(ids[i], activities, fetch, powerCurve, currentFtp);
        if one.Fail? {
          assert step(ids[i]) == Err(one.error);
          assert 0 <= i < |ids| && MapResults(ids[..i], step).Ok? && step(ids[i]) == Err(one.error) &&
                 rideHub.rideList == old(rideHub.rideList) + MapResults(ids[..i], step).value;
          return one;
        }
        assert step(ids[i]).Ok? && rideHub.rideList == old(rideHub.rideList) + MapResults(ids[..i], step).value + [step(ids[i]).value];
        ProcessedPrefixGrows(ids, i, step, old(rideHub.rideList), rideHub.rideList);
        i := i + 1;
      }
      assert ids[..i] == ids;
      return Pass;
    }

    /** `retrieve_and_process_new_ride_data` with the corrected
        `ProcessSingleRide`: picks the activities with a power meter whose id
        the hub does not hold, processes them in order, and answers how many
        there were, 0 when there were none. `fetch` gives the streams
        response of a ride id. An error stops the loop and leaves the rides
        processed before it in the hub. As written, the run never adds a
        ride: see `RetrieveAndProcessNewRideDataAsWritten`. */
    method RetrieveAndProcessNewRideData(activities: seq<Json>, fetch: Json -> Json,
                                         powerCurve: Json -> Json, currentFtp: Json) returns (r: Result<int>)
      modifies rideHub
      ensures rideHub.pointer == old(rideHub.pointer)
      ensures CandidateIds(activities).Err? ==>
                r == Err(CandidateIds(activities).error) && rideHub.rideList == old(rideHub.rideList)
      ensures CandidateIds(activities).Ok? ==>
                var newIds := NewIds(CandidateIds(activities).value, old(rideHub.RideIds()));
                var step := ProcessWith(activities, fetch, powerCurve, currentFtp);
                (newIds == [] ==> r == Ok(0) && rideHub.rideList == old(rideHub.rideList)) &&
                (r.Ok? ==> r.value == |newIds| && MapResults(newIds, step).Ok? &&
                           rideHub.rideList == old(rideHub.rideList) + MapResults(newIds, step).value) &&
                (r.Err? ==> exists k :: 0 <= k < |newIds| && MapResults(newIds[..k], step).Ok? &&
                              step(newIds[k]) == Err(r.error) &&
                              rideHub.rideList == old(rideHub.rideList) + MapResults(newIds[..k], step).value)
    {
      var candidates := CandidateIds(activities);
      if candidates.Err? {
        return Err(candidates.error);
      }
      var newIds := NewIds(candidates.value, rideHub.RideIds());
      if newIds == [] {
        return Ok(0);
      }
      var o := ProcessRides(newIds, activities, fetch, powerCurve, currentFtp);
      if o.Fail? {
        return Err(o.error);
      }
      return Ok(|newIds|);
    }

    /** `retrieve_and_process_new_ride_data` as written: every call of
        `process_single_ride` raises, so the loop stops at the first new id
        with its lookup or streams error, or else with the `ValueError` of
        `add_ride`, and no ride is ever added. */
    method RetrieveAndProcessNewRideDataAsWritten(activities: seq<Json>, fetch: Json -> Json,
                                                  powerCurve: Json -> Json, currentFtp: Json) returns (r: Result<int>)
      modifies rideHub
      ensures rideHub.pointer == old(rideHub.pointer) && rideHub.rideList == old(rideHub.rideList)
      ensures CandidateIds(activities).Err? ==> r == Err(CandidateIds(activities).error)
      ensures CandidateIds(activities).Ok? ==>
                var newIds := NewIds(CandidateIds(activities).value, old(rideHub.RideIds()));
                (newIds == [] <==> r.Ok?) && (r.Ok? ==> r.value == 0) &&
                (newIds != [] && FirstActivityWithId(activities, newIds[0]).Err? ==>
                   r == Err(FirstActivityWithId(activities, newIds[0]).error)) &&
                (newIds != [] && FirstActivityWithId(activities, newIds[0]).Ok? && StreamData(fetch(newIds[0])).Err? ==>
                   r == Err(StreamData(fetch(newIds[0])).error)) &&
                (newIds != [] && FirstActivityWithId(activities, newIds[0]).Ok? && StreamData(fetch(newIds[0])).Ok? ==>
                   r == Err(ValueError))
    {
      var candidates := CandidateIds(activities);
      if candidates.Err? {
        return Err(candidates.error);
      }
      var newIds := NewIds(candidates.value, rideHub.RideIds());
      if newIds == [] {
        return Ok(0);
      }
      var o: Outcome := Pass;
      var i := 0;
      while i < |newIds| && o.Pass?
        invariant 0 <= i <= |newIds|
        invariant i == 0 <==> o.Pass?
        invariant i != 0 ==> o == ProcessingOutcomeAsWritten(activities, fetch, newIds[0])
        invariant rideHub.pointer == old(rideHub.pointer) && rideHub.rideList == old(rideHub.rideList)
      {
        o := ProcessSingleRideAsWritten(newIds[i], activities, fetch, powerCurve, currentFtp);
        i := i + 1;
      }
      return Err(o.error);
    }
  }

  /** The failure `process_single_ride` as written ends in for one id. */
  function ProcessingOutcomeAsWritten(activities: seq<Json>, fetch: Json -> Json, rideId: Json): (o: Outcome)
    ensures o.Fail?
  {
    if FirstActivityWithId(activities, rideId).Err? then Fail(FirstActivityWithId(activities, rideId).error)
    else if StreamData(fetch(rideId)).Err? then Fail(StreamData(fetch(rideId)).error)
    else Fail(ValueError)
  }

  /** After a successful run with the corrected `ProcessSingleRide` every
      new id is held, each by a ride of the class the hub accepts whose
      metadata carries the current FTP. */
  lemma ProcessedRidesAreHeld(activities: seq<Json>, newIds: seq<Json>, fetch: Json -> Json,
                              powerCurve: Json -> Json, currentFtp: Json, added: seq<StravaRide>)
    requires MapResults(newIds, ProcessWith(activities, fetch, powerCurve, currentFtp)) == Ok(added)
    ensures IdsOf(added) == newIds
    ensures forall k :: 0 <= k < |added| ==>
              added[k].cls == BaseRide && added[k].metadata.JDict? &&
              "ftp" in added[k].metadata.fields && added[k].metadata.fields["ftp"] == currentFtp
  {
    var step := ProcessWith(activities, fetch, powerCurve, currentFtp);
    forall k | 0 <= k < |added| ensures added[k].id == newIds[k] && added[k].cls == BaseRide {
      assert step(newIds[k]) == Ok(added[k]);
    }
  }
}
