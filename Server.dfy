/** The Express routes of the back end as methods of one `Database` object whose fields are the
    MySQL tables. Each route validates its input and then appends to, updates, truncates or
    queries the tables. The auto-increment keys are counters in the object and the time stamp
    the database assigns is a parameter. */
module Server {
  import opened Wrappers
  import opened Js
  import opened Http
  import opened Sql
  import opened Sequences
  import opened Catalog
  import opened Forecast
  import opened Records

  /** The whole database at one moment. */
  datatype Tables = Tables(
    energyData: seq<EnergyRow>,
    averageEnergyData: seq<AverageRow>,
    chargingEmissions: seq<ChargingRow>,
    devices: seq<DeviceRow>,
    usageEmissions: seq<UsageRow>,
    nextSessionID: nat,
    nextDeviceID: nat)

  /** Auto-increment keys: each is at least 1, below the next key to hand out, and the rows are
      in increasing key order (so no key occurs twice). */
  predicate KeysValid(t: Tables) {
    && t.nextSessionID >= 1 && t.nextDeviceID >= 1
    && (forall i :: 0 <= i < |t.averageEnergyData| ==> 1 <= t.averageEnergyData[i].sessionID < t.nextSessionID)
    && (forall i, j :: 0 <= i < j < |t.averageEnergyData| ==>
          t.averageEnergyData[i].sessionID < t.averageEnergyData[j].sessionID)
    && (forall i :: 0 <= i < |t.devices| ==> 1 <= t.devices[i].deviceid < t.nextDeviceID)
    && (forall i, j :: 0 <= i < j < |t.devices| ==> t.devices[i].deviceid < t.devices[j].deviceid)
  }

  /** Appending a row under the next session key, and handing out the key, keeps the keys valid. */
  lemma SessionAppendKeepsKeys(t: Tables, row: AverageRow)
    requires KeysValid(t) && row.sessionID == t.nextSessionID
    ensures KeysValid(t.(averageEnergyData := t.averageEnergyData + [row], nextSessionID := t.nextSessionID + 1))
  {
  }

  /** The same for a device appended under the next device key. */
  lemma DeviceAppendKeepsKeys(t: Tables, d: DeviceRow)
    requires KeysValid(t) && d.deviceid == t.nextDeviceID
    ensures KeysValid(t.(devices := t.devices + [d], nextDeviceID := t.nextDeviceID + 1))
  {
  }

  class Database {
    var energyData: seq<EnergyRow>
    var averageEnergyData: seq<AverageRow>
    var chargingEmissions: seq<ChargingRow>
    var devices: seq<DeviceRow>
    var usageEmissions: seq<UsageRow>
    var nextSessionID: nat
    var nextDeviceID: nat

    function State(): Tables
      reads this
    {
      Tables(energyData, averageEnergyData, chargingEmissions, devices, usageEmissions, nextSessionID, nextDeviceID)
    }

    predicate Valid()
      reads this
    {
      KeysValid(State())
    }

    constructor()
      ensures Valid()
      ensures State() == Tables([], [], [], [], [], 1, 1)
    {
      energyData := [];
      averageEnergyData := [];
      chargingEmissions := [];
      devices := [];
      usageEmissions := [];
      nextSessionID := 1;
      nextDeviceID := 1;
    }

    /** `GET /getDevices`: the user's devices, `success` false when there are none. */
    method GetDevices(userId: JsValue) returns (st: Status, success: bool, rows: seq<DeviceRow>)
      ensures st == (if Truthy(userId) then Ok else BadRequest)
      ensures rows == (if st == Ok then OwnedDevices(devices, userId) else [])
      ensures success <==> rows != []
    {
      if !Truthy(userId) {
        return BadRequest, false, [];
      }
      rows := OwnedDevices(devices, userId);
      return Ok, rows != [], rows;
    }

    /** `POST /addDevices`: the checks of `CheckDevice`, then one appended device with a fresh
        key and no manufacturing emission yet. An id that cannot be written fails the insert. */
    method AddDevices(q: DeviceRequest, csv: Option<seq<CatalogRow>>) returns (st: Status, verdict: DeviceVerdict)
      requires Valid()
      modifies this
      ensures Valid()
      ensures verdict == CheckDevice(q, csv)
      ensures st == (if verdict != Listed then BadRequest else if StoreCell(q.id).Stored? then Ok else ServerError)
      ensures State() == if st == Ok then
          old(State()).(
            devices := old(devices) + [DeviceRow(old(nextDeviceID), q.selectedType.s, q.selectedManufacturer.s,
                                                 q.selectedModel.s, StoreCell(q.id).cell, None)],
            nextDeviceID := old(nextDeviceID) + 1)
        else old(State())
    {
      verdict := CheckDevice(q, csv);
      if verdict != Listed {
        return BadRequest, verdict;
      }
      var id := StoreCell(q.id);
      if id.Rejected? {
        return ServerError, verdict;
      }
      var d := DeviceRow(nextDeviceID, q.selectedType.s, q.selectedManufacturer.s, q.selectedModel.s, id.cell, None);
      DeviceAppendKeepsKeys(State(), d);
      devices := devices + [d];
      nextDeviceID := nextDeviceID + 1;
      return Ok, verdict;
    }

    /** `POST /updateDeviceEmissions`: MFEmissions := lifetime × gwp_total on exactly the rows
        with that device id; every other row and table is left as it was. */
    method UpdateDeviceEmissions(q: EmissionsUpdate) returns (st: Status, emission: Option<real>)
      requires Valid()
      modifies this
      ensures Valid()
      ensures emission == DeviceEmission(q)
      ensures st == (if emission.Some? then Ok else BadRequest)
      ensures |devices| == |old(devices)|
      ensures forall i :: 0 <= i < |devices| ==>
        devices[i] == if emission.Some? && Matches(DeviceKey(old(devices)[i]), q.deviceid)
                      then old(devices)[i].(mfEmissions := emission)
                      else old(devices)[i]
      ensures State() == old(State()).(devices := devices)
    {
      emission := DeviceEmission(q);
      if emission.None? {
        return BadRequest, emission;
      }
      var old_ := devices;
      devices := seq(|old_|, i requires 0 <= i < |old_| =>
        if Matches(DeviceKey(old_[i]), q.deviceid) then old_[i].(mfEmissions := emission) else old_[i]);
      return Ok, emission;
    }

    /** `GET /getDeviceDetails`: the first device with that id; as keys are unique, the only
        one. */
    method GetDeviceDetails(deviceid: JsValue) returns (st: Status, device: Option<DeviceRow>)
      requires Valid()
      ensures st == (if Truthy(deviceid) then Ok else BadRequest)
      ensures device.Some? ==> st == Ok && device.value in devices && Matches(DeviceKey(device.value), deviceid)
      ensures st == Ok && device.None? ==> forall d :: d in devices ==> !Matches(DeviceKey(d), deviceid)
      ensures device.Some? ==> forall d :: d in devices && Matches(DeviceKey(d), deviceid) ==> d == device.value
    {
      if !Truthy(deviceid) {
        return BadRequest, None;
      }
      var k := FindFirst(devices, (d: DeviceRow) => Matches(DeviceKey(d), deviceid));
      if k.None? {
        return Ok, None;
      }
      device := Some(devices[k.value]);
      forall d | d in devices && Matches(DeviceKey(d), deviceid) ensures d == device.value {
        var j :| 0 <= j < |devices| && devices[j] == d;
        assert devices[j].deviceid == devices[k.value].deviceid;
      }
      st := Ok;
    }

    /** `POST /storeUsageEmissions`: one appended row when the request passes `UsageRowOf`. */
    method StoreUsageEmissions(q: UsageRequest) returns (st: Status)
      modifies this
      ensures st == UsageRowOf(q).Outcome()
      ensures State() == if st == Ok then old(State()).(usageEmissions := old(usageEmissions) + [UsageRowOf(q).row])
                         else old(State())
    {
      var r := UsageRowOf(q);
      if r.Accepted? {
        usageEmissions := usageEmissions + [r.row];
      }
      return r.Outcome();
    }

    /** `POST /storeEnergyData`: one appended sample when the request passes `EnergyRowOf`;
        every other table is untouched. */
    method StoreEnergyData(q: EnergyRequest) returns (st: Status)
      modifies this
      ensures st == EnergyRowOf(q).Outcome()
      ensures State() == if st == Ok then old(State()).(energyData := old(energyData) + [EnergyRowOf(q).row])
                         else old(State())
    {
      var r := EnergyRowOf(q);
      if r.Accepted? {
        energyData := energyData + [r.row];
      }
      return r.Outcome();
    }

    /** `GET /fetchEnergyData`: the samples of that device in table order, `success` false when
        there are none. */
    method FetchEnergyData(deviceid: JsValue) returns (st: Status, success: bool, rows: seq<EnergyRow>)
      ensures st == (if Truthy(deviceid) then Ok else BadRequest)
      ensures rows == (if st == Ok then DeviceReadings(energyData, deviceid) else [])
      ensures forall r :: r in rows <==> st == Ok && r in energyData && Matches(r.deviceid, deviceid)
      ensures success <==> rows != []
    {
      if !Truthy(deviceid) {
        return BadRequest, false, [];
      }
      rows := DeviceReadings(energyData, deviceid);
      forall r ensures r in rows <==> r in energyData && Matches(r.deviceid, deviceid) {
        DeviceReadingsExact(energyData, deviceid, r);
      }
      return Ok, rows != [], rows;
    }

    /** `POST /truncateEnergyData`: empties the buffer of every device, not only the caller's. */
    method TruncateEnergyData() returns (st: Status)
      modifies this
      ensures st == Ok
      ensures State() == old(State()).(energyData := [])
    {
      energyData := [];
      return Ok;
    }

    /** `POST /storeAverageEnergyData`: one appended aggregate, with the next session key and
        the database clock `now`, when the request passes `AverageRowOf`. */
    method StoreAverageEnergyData(q: AverageRequest, now: int) returns (st: Status)
      requires Valid()
      modifies this
      ensures Valid()
      ensures st == AverageRowOf(q, old(nextSessionID), now).Outcome()
      ensures State() == if st == Ok then
          old(State()).(averageEnergyData := old(averageEnergyData) + [AverageRowOf(q, old(nextSessionID), now).row],
                        nextSessionID := old(nextSessionID) + 1)
        else old(State())
    {
      var r := AverageRowOf(q, nextSessionID, now);
      if r.Accepted? {
        SessionAppendKeepsKeys(State(), r.row);
        averageEnergyData := averageEnergyData + [r.row];
        nextSessionID := nextSessionID + 1;
      }
      return r.Outcome();
    }

    /** `GET /fetchRecentAverageEnergyData`: the session key of a row with the greatest time
        stamp in the whole table, whatever its device or user; `success` false on an empty
        table. Which of several rows with the same time stamp is chosen is not fixed. */
    method FetchRecentAverageEnergyData() returns (success: bool, sessionID: nat)
      ensures success <==> averageEnergyData != []
      ensures success ==> exists i :: 0 <= i < |averageEnergyData| && averageEnergyData[i].sessionID == sessionID
                                      && IsLatest(averageEnergyData, i)
    {
      if averageEnergyData == [] {
        return false, 0;
      }
      var best := 0;
      var k := 1;
      while k < |averageEnergyData|
        invariant 0 <= best < k <= |averageEnergyData|
        invariant forall j :: 0 <= j < k ==> averageEnergyData[j].timestamp <= averageEnergyData[best].timestamp
      {
        if averageEnergyData[k].timestamp > averageEnergyData[best].timestamp {
          best := k;
        }
        k := k + 1;
      }
      assert IsLatest(averageEnergyData, best);
      return true, averageEnergyData[best].sessionID;
    }

    /** `POST /storeChargingEmissionsData`: one appended row when the request passes
        `ChargingRowOf`; the session key is not checked against `AverageEnergyData`. */
    method StoreChargingEmissionsData(q: ChargingRequest) returns (st: Status)
      modifies this
      ensures st == ChargingRowOf(q).Outcome()
      ensures State() == if st == Ok then old(State()).(chargingEmissions := old(chargingEmissions) + [ChargingRowOf(q).row])
                         else old(State())
    {
      var r := ChargingRowOf(q);
      if r.Accepted? {
        chargingEmissions := chargingEmissions + [r.row];
      }
      return r.Outcome();
    }

    /** `GET /fetchChargingViz`: the join for that user and device, newest first. */
    method FetchChargingViz(userid: JsValue, deviceid: JsValue) returns (st: Status, rows: seq<Joined>)
      ensures st == (if Truthy(deviceid) && Truthy(userid) then Ok else BadRequest)
      ensures st == Ok ==> Sorted(rows, NewestFirst)
      ensures st == Ok ==> multiset(rows) == multiset(Join(averageEnergyData, chargingEmissions, userid, deviceid))
      ensures st != Ok ==> rows == []
    {
      if !Truthy(deviceid) || !Truthy(userid) {
        return BadRequest, [];
      }
      var joined := Join(averageEnergyData, chargingEmissions, userid, deviceid);
      rows := SortBy(joined, NewestFirst);
      SortBySorted(joined, NewestFirst);
      SortByPermutes(joined, NewestFirst);
      return Ok, rows;
    }

    /** `GET /fetchManufacturingViz`: `deviceid` and `MFEmissions` of each of the user's
        devices, in table order. */
    method FetchManufacturingViz(userid: JsValue) returns (st: Status, points: seq<MfPoint>)
      ensures st == (if Truthy(userid) then Ok else BadRequest)
      ensures points == (if st == Ok then MfPoints(OwnedDevices(devices, userid)) else [])
    {
      if !Truthy(userid) {
        return BadRequest, [];
      }
      return Ok, MfPoints(OwnedDevices(devices, userid));
    }

    /** `GET /fetchData`: the join for that user and device, oldest first, is sent to the
        prediction service; 404 when it is empty. A refusal by the service (fewer than ten rows,
        or a `ValueError` in the network) and a failure inside it both become a 500, as the
        client throws on either status. */
    method FetchData(userid: JsValue, deviceid: JsValue, network: Network) returns (st: Status, p: Option<Prediction>)
      ensures !(Truthy(userid) && Truthy(deviceid)) ==> st == BadRequest && p.None?
      ensures Truthy(userid) && Truthy(deviceid) ==>
        var joined := Join(averageEnergyData, chargingEmissions, userid, deviceid);
        var data := PredictionData(SortBy(joined, OldestFirst));
        if joined == [] then st == NotFound && p.None?
        else if |data| < SequenceLength then st == ServerError && p.None?
        else match network(TrainingSet(data), LastRows(data))
          case Output(a, t, e) => st == Ok && p == Some(Prediction(a, t, Abs(e)))
          case _ => st == ServerError && p.None?
    {
      if !Truthy(userid) || !Truthy(deviceid) {
        return BadRequest, None;
      }
      var joined := Join(averageEnergyData, chargingEmissions, userid, deviceid);
      if joined == [] {
        return NotFound, None;
      }
      SortByPermutes(joined, OldestFirst);
      var data := PredictionData(SortBy(joined, OldestFirst));
      var flask, prediction := Predict(Some(data), network);
      if flask != Ok {
        return ServerError, None;
      }
      return Ok, prediction;
    }
  }

  /** The sessions `fetchChargingViz` and `fetchData` report: exactly the pairs of an aggregate
      of that user and device with an emission row naming its session. */
  lemma FetchedPairsExact(t: Tables, userid: JsValue, deviceid: JsValue, j: Joined)
    ensures j in multiset(SortBy(Join(t.averageEnergyData, t.chargingEmissions, userid, deviceid), NewestFirst)) <==>
      (j.a in t.averageEnergyData && j.c in t.chargingEmissions && SameSession(j.a, j.c) && OwnedBy(j.a, userid, deviceid))
  {
    var joined := Join(t.averageEnergyData, t.chargingEmissions, userid, deviceid);
    SortByPermutes(joined, NewestFirst);
    JoinExact(t.averageEnergyData, t.chargingEmissions, userid, deviceid, j);
  }
}
