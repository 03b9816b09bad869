/** The visualization page of one device: the charging history chart, cut to the number of
    points the user asks for, and the manufacturing pie with two slices, the device of the
    route and all the user's other devices. */
module Visualization {
  import opened Wrappers
  import opened Js
  import opened Sequences
  import opened Records

  /** `entry.deviceid == deviceid`: the numeric id of a point against the route parameter. */
  predicate IsCurrent(p: MfPoint, deviceid: JsValue) {
    LooseEquals(Num(p.deviceid as real), deviceid)
  }

  function CurrentTest(deviceid: JsValue): MfPoint -> bool {
    (p: MfPoint) => IsCurrent(p, deviceid)
  }

  function Negate<T>(f: T -> bool): T -> bool {
    (x: T) => !f(x)
  }

  function CurrentPoints(points: seq<MfPoint>, deviceid: JsValue): seq<MfPoint> {
    Filter(points, CurrentTest(deviceid))
  }

  function OtherPoints(points: seq<MfPoint>, deviceid: JsValue): seq<MfPoint> {
    Filter(points, Negate(CurrentTest(deviceid)))
  }

  /** A slice of the pie. */
  datatype Slice = Slice(name: string, mfEmissions: real)

  /** The current device's and the other devices' totals add up to the total of all points. */
  lemma {:induction false} PiePartition(points: seq<MfPoint>, deviceid: JsValue)
    ensures Total(CurrentPoints(points, deviceid)) + Total(OtherPoints(points, deviceid)) == Total(points)
    decreases |points|
  {
    if points != [] {
      var k := |points| - 1;
      PiePartition(points[..k], deviceid);
      AccumulateStep(points, k, CurrentTest(deviceid));
      assert points[..k + 1] == points;
    }
  }

  /** With the route id the string of a device id, the current slice sums exactly the points of
      that device. */
  lemma CurrentIsRouteDevice(points: seq<MfPoint>, id: nat, p: MfPoint)
    ensures p in CurrentPoints(points, Str(DecimalString(id))) <==> p in points && p.deviceid == id
  {
    FilterMembers(points, (q: MfPoint) => IsCurrent(q, Str(DecimalString(id))), p);
    NumberDecimalString(id);
    NumberDecimalString(p.deviceid);
  }

  /** `renderPieChart`: nothing (the loading text) before the data arrives; otherwise the two
      slices, current device first. `total` is the accumulated sum of all points. */
  method RenderPieChart(data: Option<seq<MfPoint>>, deviceid: JsValue) returns (pie: Option<seq<Slice>>, total: real)
    ensures data.None? <==> pie.None?
    ensures data.Some? ==> pie.value == [Slice("Current Device", Total(CurrentPoints(data.value, deviceid))),
                                        Slice("Other Devices", Total(OtherPoints(data.value, deviceid)))]
    ensures data.Some? ==> total == Total(data.value) && total == pie.value[0].mfEmissions + pie.value[1].mfEmissions
  {
    if data.None? {
      return None, 0.0;
    }
    var current, other;
    current, other, total := Accumulate(data.value, CurrentTest(deviceid));
    PiePartition(data.value, deviceid);
    pie := Some([Slice("Current Device", current), Slice("Other Devices", other)]);
  }

  /** The `forEach` of `renderPieChart`: the running sums of all points, of the points `test`
      accepts, and of the others. */
  method Accumulate(points: seq<MfPoint>, test: MfPoint -> bool) returns (current: real, other: real, total: real)
    ensures current == Total(Filter(points, test))
    ensures other == Total(Filter(points, Negate(test)))
    ensures total == Total(points)
  {
    current, other, total := 0.0, 0.0, 0.0;
    for k := 0 to |points|
      invariant total == Total(points[..k])
      invariant current == Total(Filter(points[..k], test))
      invariant other == Total(Filter(points[..k], Negate(test)))
    {
      var entry := points[k];
      AccumulateStep(points, k, test);
      total := total + CellOrZero(entry.mfEmissions);
      if test(entry) {
        current := current + CellOrZero(entry.mfEmissions);
      } else {
        other := other + CellOrZero(entry.mfEmissions);
      }
    }
    assert points[..|points|] == points;
  }

  /** One more point adds its emission to the running total and to exactly one of the two
      partial sums. */
  lemma AccumulateStep(points: seq<MfPoint>, k: nat, test: MfPoint -> bool)
    requires k < |points|
    ensures var v := CellOrZero(points[k].mfEmissions);
      && Total(points[..k + 1]) == Total(points[..k]) + v
      && Total(Filter(points[..k + 1], test)) == Total(Filter(points[..k], test)) + (if test(points[k]) then v else 0.0)
      && Total(Filter(points[..k + 1], Negate(test))) == Total(Filter(points[..k], Negate(test))) + (if test(points[k]) then 0.0 else v)
  {
    var entry := points[k];
    assert Total([entry]) == CellOrZero(entry.mfEmissions);
    assert points[..k + 1] == points[..k] + [entry];
    TotalAppend(points[..k], [entry]);
    FilterStep(points, k, test);
    FilterStep(points, k, Negate(test));
    assert Negate(test)(entry) == !test(entry);
    if test(entry) {
      TotalAppend(Filter(points[..k], test), [entry]);
      assert Filter(points[..k], Negate(test)) + [] == Filter(points[..k], Negate(test));
    } else {
      TotalAppend(Filter(points[..k], Negate(test)), [entry]);
      assert Filter(points[..k], test) + [] == Filter(points[..k], test);
    }
  }

  /** `chargingVizData ? chargingVizData.slice(0, dataPoints) : []`. */
  function FilteredChargingData(data: Option<seq<Joined>>, dataPoints: Number): (r: seq<Joined>)
    ensures data.None? ==> r == []
    ensures data.Some? ==> |r| <= |data.value| && r == data.value[..|r|]
  {
    if data.None? then [] else SliceTo(data.value, dataPoints)
  }

  /** `setDataPoints(Number(event.target.value))`. */
  function DataPointsOf(text: string): Number {
    StringToNumber(text)
  }

  /** Typing a count `n` shows the first `n` rows, or all of them when there are fewer. */
  lemma TypedCountShowsPrefix(data: seq<Joined>, n: nat)
    ensures var r := FilteredChargingData(Some(data), DataPointsOf(DecimalString(n)));
      r == data[..if n < |data| then n else |data|]
  {
    NumberDecimalString(n);
    assert ToInteger(Finite(n as real)) == n;
  }

  /** The initial count is 10; clearing the field (the empty string) shows no rows. */
  lemma DefaultAndClearedCounts(data: seq<Joined>)
    ensures FilteredChargingData(Some(data), Finite(10.0)) == data[..if 10 < |data| then 10 else |data|]
    ensures FilteredChargingData(Some(data), DataPointsOf("")) == []
  {
    assert ToInteger(Finite(10.0)) == 10;
  }
}
