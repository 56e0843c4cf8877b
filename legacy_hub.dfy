/** The legacy ride hub of `modules/objects.py`: the same object as the
    newer hub, but without de-duplication, with `get` in place of
    `__getitem__`, and holding its own `StravaRide` class. */
module LegacyHub {
  import opened Wrappers
  import opened JsonValues
  import opened Rides

  class RideHub {
    /** `_ride_list`. */
    var rideList: seq<StravaRide>
    /** `_pointer`; `None` until `__iter__` first sets it. */
    var pointer: Option<nat>

    /** A hub holding `rides`, with no cursor yet. */
    constructor FromRides(rides: seq<StravaRide>)
      ensures rideList == rides && pointer == None
    {
      rideList := rides;
      pointer := None;
    }

    /** `RideHub.__init__` of the legacy module: every argument is turned
        into a ride and appended to what the class-level list, `shared`,
        already holds, duplicates included. A non-dictionary argument raises
        `TypeError` and a missing key `KeyError`. */
    static method Create(shared: seq<StravaRide>, args: seq<Json>) returns (r: Result<RideHub>)
      ensures BuildRides(LegacyRide, shared, args, false).Err? ==> r == Err(BuildRides(LegacyRide, shared, args, false).error)
      ensures BuildRides(LegacyRide, shared, args, false).Ok? ==>
                r.Ok? && fresh(r.value) && r.value.pointer == None &&
                r.value.rideList == BuildRides(LegacyRide, shared, args, false).value
    {
      var hub := new RideHub.FromRides(shared);
      var i := 0;
      while i < |args|
        invariant 0 <= i <= |args|
        invariant hub.pointer == None
        invariant BuildRides(LegacyRide, hub.rideList, args[i..], false) == BuildRides(LegacyRide, shared, args, false)
      {
        var arg := args[i];
        assert args[i..][0] == arg && args[i..][1..] == args[i + 1..];
        if !arg.JDict? {
          return Err(TypeError);
        }
        if "id" !in arg.fields || "metadata" !in arg.fields || "metrics_dict" !in arg.fields {
          return Err(KeyError);
        }
        hub.rideList := hub.rideList + [StravaRide(LegacyRide, arg.fields["id"], arg.fields["metadata"], arg.fields["metrics_dict"])];
        i := i + 1;
      }
      return Ok(hub);
    }

    /** `ride_ids`: the id of every ride, in list order. */
    function RideIds(): (ids: seq<Json>)
      reads this
      ensures |ids| == |rideList|
      ensures forall i :: 0 <= i < |rideList| ==> ids[i] == rideList[i].id
    {
      IdsOf(rideList)
    }

    /** `__len__`: one per ride, and one per listed id. */
    function Len(): (n: nat)
      reads this
      ensures n == |RideIds()|
    {
      |rideList|
    }

    /** `__contains__`: whether some ride has the id. */
    function Contains(id: Json): (b: bool)
      reads this
      ensures b <==> exists i :: 0 <= i < |rideList| && rideList[i].id == id
    {
      id in RideIds()
    }

    /** `get`: `ValueError` for an id no ride has, and otherwise the first
        ride with that id. */
    function Get(id: Json): (r: Result<StravaRide>)
      reads this
      ensures r.Err? <==> !Contains(id)
      ensures r.Err? ==> r.error == ValueError
      ensures r.Ok? ==> r.value.id == id
      ensures r.Ok? ==> exists k :: 0 <= k < |rideList| && rideList[k] == r.value &&
                                    forall j :: 0 <= j < k ==> rideList[j].id != id
    {
      if !Contains(id) then Err(ValueError) else Ok(FirstWithId(rideList, id))
    }

    /** `create_json_output`: one dictionary per ride, in list order. */
    function CreateJsonOutput(): (out: seq<Json>)
      reads this
      ensures |out| == |rideList|
      ensures forall i :: 0 <= i < |rideList| ==> out[i] == JDict(ToDict(rideList[i]))
    {
      JsonOutput(rideList)
    }

    /** Exporting a hub of legacy rides and reading the export back into a
        fresh legacy hub gives the same rides in the same order, duplicates
        included. */
    lemma JsonOutputRoundTrip()
      requires AllOfClass(rideList, LegacyRide)
      ensures BuildRides(LegacyRide, [], CreateJsonOutput(), false) == Ok(rideList)
    {
      RecordRidesOfJsonOutput(rideList, LegacyRide);
      AppendAllFrom(LegacyRide, [], CreateJsonOutput(), rideList);
      assert [] + rideList == rideList;
    }

    /** `__iter__`: restarts the cursor and returns the hub itself. */
    method Iter() returns (it: RideHub)
      modifies this
      ensures it == this
      ensures pointer == Some(0) && rideList == old(rideList)
    {
      pointer := Some(0);
      it := this;
    }

    /** `__next__`: `AttributeError` before any `__iter__`, `StopIteration`
        once the cursor is past the last ride, and otherwise the ride under
        the cursor, which then moves one place on. */
    method Next() returns (r: Result<StravaRide>)
      modifies this
      ensures rideList == old(rideList)
      ensures old(pointer).None? ==> r == Err(AttributeError) && pointer == old(pointer)
      ensures old(pointer).Some? && old(pointer).value >= |rideList| ==>
                r == Err(StopIteration) && pointer == old(pointer)
      ensures old(pointer).Some? && old(pointer).value < |rideList| ==>
                r == Ok(rideList[old(pointer).value]) && pointer == Some(old(pointer).value + 1)
    {
      if pointer.None? {
        return Err(AttributeError);
      }
      var p := pointer.value;
      if p > |rideList| - 1 {
        return Err(StopIteration);
      }
      r := Ok(rideList[p]);
      pointer := Some(p + 1);
    }

    /** A `for` loop over the hub: `__iter__`, then `__next__` until
        `StopIteration`. It visits every ride once, in list order. */
    method IterateAll() returns (rides: seq<StravaRide>)
      modifies this
      ensures rideList == old(rideList)
      ensures rides == rideList
      ensures pointer == Some(|rideList|)
    {
      var _ := Iter();
      rides := [];
      while true
        invariant rideList == old(rideList)
        invariant pointer.Some? && pointer.value <= |rideList|
        invariant rides == rideList[..pointer.value]
        decreases |rideList| - pointer.value
      {
        var step := Next();
        if step.Err? {
          break;
        }
        assert rideList[..pointer.value] == rideList[..pointer.value - 1] + [step.value];
        rides := rides + [step.value];
      }
    }

    /** `add_ride`: appends an instance of the legacy `StravaRide`, even one whose
        id is already held, and raises `ValueError` for anything else. */
    method AddRide(obj: PyObject) returns (o: Outcome)
      modifies this
      ensures o == ValidateStravaRide(LegacyRide, obj)
      ensures o.Pass? ==> rideList == old(rideList) + [obj.ride]
      ensures o.Fail? ==> rideList == old(rideList)
      ensures pointer == old(pointer)
    {
      o := ValidateStravaRide(LegacyRide, obj);
      if o.Pass? {
        rideList := rideList + [obj.ride];
      }
    }

    /** `remove_ride`: drops every ride with the given ride's id. The id is
        read inside the filter, once per held ride, so an argument without
        an `id` attribute raises `AttributeError` only when some ride is
        held; on an empty hub any argument is a silent no-op. */
    method RemoveRide(obj: PyObject) returns (o: Outcome)
      modifies this
      ensures o.Fail? <==> obj.JsonObject? && old(rideList) != []
      ensures o.Fail? ==> o.error == AttributeError && rideList == old(rideList)
      ensures o.Pass? && obj.RideObject? ==> rideList == WithoutId(old(rideList), obj.ride.id)
      ensures o.Pass? && obj.JsonObject? ==> rideList == old(rideList) == []
      ensures pointer == old(pointer)
    {
      if obj.JsonObject? {
        if rideList != [] {
          return Fail(AttributeError);
        }
        return Pass;
      }
      rideList := WithoutId(rideList, obj.ride.id);
      o := Pass;
    }

    /** `remove_ride_by_id`: `ValueError` for an id no ride has, and otherwise
        drops every ride with that id. */
    method RemoveRideById(id: Json) returns (o: Outcome)
      modifies this
      ensures o.Fail? <==> !old(Contains(id))
      ensures o.Fail? ==> o.error == ValueError && rideList == old(rideList)
      ensures o.Pass? ==> rideList == WithoutId(old(rideList), id)
      ensures pointer == old(pointer)
    {
      if id !in RideIds() {
        return Fail(ValueError);
      }
      rideList := WithoutId(rideList, id);
      o := Pass;
    }

    /** After a removal by id, no ride has that id and every ride with
        another id is still held. */
    lemma RemovalKeepsOthers(before: seq<StravaRide>, id: Json, x: StravaRide)
      requires rideList == WithoutId(before, id)
      ensures !Contains(id)
      ensures x in before && x.id != id <==> x in rideList
    {
      WithoutIdRemoves(before, id);
      if x in before && x.id != id {
        WithoutIdKeeps(before, id, x);
      }
      if x in rideList {
        WithoutIdFrom(before, id, x);
      }
    }

    /** Adding a ride whose id is new and then removing that id gives back
        the rides held before. */
    lemma AddThenRemoveById(before: seq<StravaRide>, x: StravaRide)
      requires x.id !in IdsOf(before) && rideList == before + [x]
      ensures Contains(x.id)
      ensures WithoutId(rideList, x.id) == before
    {
      assert rideList[|before|] == x;
      AddThenRemove(before, x);
    }
  }

  /** The legacy constructor appends one ride per argument, in order, and
      succeeds exactly when every argument is a full ride dictionary. */
  lemma CreateAppendsAll(shared: seq<StravaRide>, args: seq<Json>)
    ensures BuildRides(LegacyRide, shared, args, false).Ok? <==> RecordRides(LegacyRide, args).Ok?
    ensures RecordRides(LegacyRide, args).Ok? ==>
              BuildRides(LegacyRide, shared, args, false) == Ok(shared + RecordRides(LegacyRide, args).value)
  {
    AppendAllSucceeds(LegacyRide, shared, args);
    if RecordRides(LegacyRide, args).Ok? {
      AppendAllFrom(LegacyRide, shared, args, RecordRides(LegacyRide, args).value);
    }
  }
}
