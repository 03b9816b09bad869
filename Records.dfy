/** The rows of the MySQL tables behind the Node.js back end, the bodies and query strings its
    routes receive, the validation each insert route applies, and the queries the read routes
    run, as functions on the tables. */
module Records {
  import opened Wrappers
  import opened Js
  import opened Http
  import opened Sql
  import opened Sequences
  import opened Catalog
  import opened Forecast

  /** A sample of the buffer table `EnergyData`. */
  datatype EnergyRow = EnergyRow(
    deviceid: Cell, current: Cell, voltage: Cell, power: Cell, energy: Cell, mfEmissions: Cell)
  {
    function Cells(): seq<Cell> { [deviceid, current, voltage, power, energy, mfEmissions] }
  }

  /** A session aggregate of `AverageEnergyData`. The database fills in `sessionID` (an
      auto-increment key) and `timestamp`. */
  datatype AverageRow = AverageRow(
    sessionID: nat, deviceid: Cell, userid: Cell, avgCurrent: Cell, avgVoltage: Cell,
    avgPower: Cell, avgEnergy: Cell, timeElapsed: Cell, timestamp: int)
  {
    /** The cells written from the request. */
    function Cells(): seq<Cell> { [deviceid, userid, avgCurrent, avgVoltage, avgPower, avgEnergy, timeElapsed] }
  }

  /** A row of `ChargingEmissions`: the emission of one charging session. */
  datatype ChargingRow = ChargingRow(sessionID: Cell, deviceid: Cell, userid: Cell, pcEmissions: Cell)
  {
    function Cells(): seq<Cell> { [sessionID, deviceid, userid, pcEmissions] }
  }

  /** A registered device; `deviceid` is an auto-increment key and `MFEmissions` starts NULL. */
  datatype DeviceRow = DeviceRow(
    deviceid: nat, deviceType: string, manufacturer: string, model: string, userid: Cell,
    mfEmissions: Cell)

  /** A row of `UsageEmissions`. */
  datatype UsageRow = UsageRow(deviceid: Cell, userid: Cell, power: Cell, timeElapsed: Cell, usEmissions: Cell)
  {
    function Cells(): seq<Cell> { [deviceid, userid, power, timeElapsed, usEmissions] }
  }

  /** The rows built from the converted cells, in column order. */
  function EnergyRowFrom(c: seq<Cell>): (r: EnergyRow)
    requires |c| == 6
    ensures r.Cells() == c
  {
    EnergyRow(c[0], c[1], c[2], c[3], c[4], c[5])
  }

  function AverageRowFrom(sessionID: nat, c: seq<Cell>, timestamp: int): (r: AverageRow)
    requires |c| == 7
    ensures r.Cells() == c && r.sessionID == sessionID && r.timestamp == timestamp
  {
    AverageRow(sessionID, c[0], c[1], c[2], c[3], c[4], c[5], c[6], timestamp)
  }

  function ChargingRowFrom(c: seq<Cell>): (r: ChargingRow)
    requires |c| == 4
    ensures r.Cells() == c
  {
    ChargingRow(c[0], c[1], c[2], c[3])
  }

  function UsageRowFrom(c: seq<Cell>): (r: UsageRow)
    requires |c| == 5
    ensures r.Cells() == c
  {
    UsageRow(c[0], c[1], c[2], c[3], c[4])
  }

  datatype EnergyRequest = EnergyRequest(
    deviceid: JsValue, current: JsValue, voltage: JsValue, power: JsValue, energy: JsValue,
    mfEmissions: JsValue)
  {
    /** The statement's parameters, in column order. */
    function Fields(): seq<JsValue> { [deviceid, current, voltage, power, energy, mfEmissions] }
  }

  datatype AverageRequest = AverageRequest(
    deviceid: JsValue, userid: JsValue, avgCurrent: JsValue, avgVoltage: JsValue,
    avgPower: JsValue, avgEnergy: JsValue, timeElapsed: JsValue)
  {
    function Fields(): seq<JsValue> { [deviceid, userid, avgCurrent, avgVoltage, avgPower, avgEnergy, timeElapsed] }
  }

  datatype ChargingRequest = ChargingRequest(
    sessionID: JsValue, deviceid: JsValue, userid: JsValue, pcEmissions: JsValue)
  {
    function Fields(): seq<JsValue> { [sessionID, deviceid, userid, pcEmissions] }
  }

  datatype UsageRequest = UsageRequest(
    deviceid: JsValue, userid: JsValue, power: JsValue, timeElapsed: JsValue, usEmissions: JsValue)
  {
    function Fields(): seq<JsValue> { [deviceid, userid, power, timeElapsed, usEmissions] }
  }

  datatype DeviceRequest = DeviceRequest(
    selectedType: JsValue, selectedManufacturer: JsValue, selectedModel: JsValue,
    username: JsValue, id: JsValue)

  datatype EmissionsUpdate = EmissionsUpdate(deviceid: JsValue, lifetime: JsValue, gwpTotal: JsValue)

  /** The validation of an insert: a required field is missing (400), a value cannot be
      written (the statement fails, 500), or the row to append. */
  datatype Checked<T> = Missing | Unstorable | Accepted(row: T) {
    function Outcome(): (st: Status)
      ensures st == Ok <==> Accepted?
      ensures st == BadRequest <==> Missing?
    {
      match this
      case Missing => BadRequest
      case Unstorable => ServerError
      case Accepted(_) => Ok
    }
  }

  /** `storeEnergyData`: the id must be truthy, the readings only defined, so a reading of 0
      (or `null`) is accepted while an id of 0 is refused. The row holds the conversions of the
      submitted values and is found again by a query with the submitted id. */
  function EnergyRowOf(q: EnergyRequest): (r: Checked<EnergyRow>)
    ensures r.Missing? <==> (!Truthy(q.deviceid) || q.current.Undefined? || q.voltage.Undefined?
      || q.power.Undefined? || q.energy.Undefined? || q.mfEmissions.Undefined?)
    ensures !r.Missing? ==> (r.Accepted? <==> StoreAll(q.Fields()).Some?)
    ensures r.Accepted? ==> r.row.Cells() == StoreAll(q.Fields()).value
    ensures r.Accepted? ==> Matches(r.row.deviceid, q.deviceid)
  {
    if !Truthy(q.deviceid) || q.current.Undefined? || q.voltage.Undefined? || q.power.Undefined?
      || q.energy.Undefined? || q.mfEmissions.Undefined?
    then Missing
    else match StoreAll(q.Fields())
      case None => Unstorable
      case Some(c) =>
        StoreAllMatches(q.Fields(), 0);
        Accepted(EnergyRowFrom(c))
  }

  /** `storeAverageEnergyData`: both ids truthy, the averages and `timeElapsed` defined; the
      database adds the session key and the time stamp. */
  function AverageRowOf(q: AverageRequest, sessionID: nat, timestamp: int): (r: Checked<AverageRow>)
    ensures r.Missing? <==> (!Truthy(q.deviceid) || !Truthy(q.userid) || q.avgCurrent.Undefined?
      || q.avgVoltage.Undefined? || q.avgPower.Undefined? || q.avgEnergy.Undefined? || q.timeElapsed.Undefined?)
    ensures !r.Missing? ==> (r.Accepted? <==> StoreAll(q.Fields()).Some?)
    ensures r.Accepted? ==> r.row.Cells() == StoreAll(q.Fields()).value
    ensures r.Accepted? ==> r.row.sessionID == sessionID && r.row.timestamp == timestamp
    ensures r.Accepted? ==> Matches(r.row.deviceid, q.deviceid) && Matches(r.row.userid, q.userid)
  {
    if !Truthy(q.deviceid) || !Truthy(q.userid) || q.avgCurrent.Undefined? || q.avgVoltage.Undefined?
      || q.avgPower.Undefined? || q.avgEnergy.Undefined? || q.timeElapsed.Undefined?
    then Missing
    else match StoreAll(q.Fields())
      case None => Unstorable
      case Some(c) => Accepted(AverageRowStored(q, sessionID, c, timestamp))
  }

  /** The aggregate row of a request whose ids are truthy and whose parameters all convert. */
  function AverageRowStored(q: AverageRequest, sessionID: nat, c: seq<Cell>, timestamp: int): (r: AverageRow)
    requires !q.deviceid.Null? && !q.deviceid.Undefined? && !q.userid.Null? && !q.userid.Undefined?
    requires StoreAll(q.Fields()) == Some(c)
    ensures r.Cells() == c && r.sessionID == sessionID && r.timestamp == timestamp
    ensures Matches(r.deviceid, q.deviceid) && Matches(r.userid, q.userid)
  {
    StoreAllMatches(q.Fields(), 0);
    StoreAllMatches(q.Fields(), 1);
    AverageRowFrom(sessionID, c, timestamp)
  }

  /** `storeChargingEmissionsData`: the session key and both ids truthy, the emission defined.
      The session key is not looked up: any truthy key is written. */
  function ChargingRowOf(q: ChargingRequest): (r: Checked<ChargingRow>)
    ensures r.Missing? <==> (!Truthy(q.sessionID) || !Truthy(q.deviceid) || !Truthy(q.userid)
      || q.pcEmissions.Undefined?)
    ensures !r.Missing? ==> (r.Accepted? <==> StoreAll(q.Fields()).Some?)
    ensures r.Accepted? ==> r.row.Cells() == StoreAll(q.Fields()).value
    ensures r.Accepted? ==> Matches(r.row.sessionID, q.sessionID)
  {
    if !Truthy(q.sessionID) || !Truthy(q.deviceid) || !Truthy(q.userid) || q.pcEmissions.Undefined?
    then Missing
    else match StoreAll(q.Fields())
      case None => Unstorable
      case Some(c) =>
        StoreAllMatches(q.Fields(), 0);
        Accepted(ChargingRowFrom(c))
  }

  /** `storeUsageEmissions`: both ids truthy, the three values defined. */
  function UsageRowOf(q: UsageRequest): (r: Checked<UsageRow>)
    ensures r.Missing? <==> (!Truthy(q.deviceid) || !Truthy(q.userid) || q.power.Undefined?
      || q.timeElapsed.Undefined? || q.usEmissions.Undefined?)
    ensures !r.Missing? ==> (r.Accepted? <==> StoreAll(q.Fields()).Some?)
    ensures r.Accepted? ==> r.row.Cells() == StoreAll(q.Fields()).value
  {
    if !Truthy(q.deviceid) || !Truthy(q.userid) || q.power.Undefined? || q.timeElapsed.Undefined?
      || q.usEmissions.Undefined?
    then Missing
    else match StoreAll(q.Fields())
      case None => Unstorable
      case Some(c) => Accepted(UsageRowFrom(c))
  }

  /** The outcome of the checks `addDevices` makes before its insert, in their order. */
  datatype DeviceVerdict = FieldsRequired | CsvMissing | InvalidType | InvalidManufacturer | InvalidModel | Listed

  /** `list.includes(v)` on a list of strings. */
  predicate Offered(list: seq<string>, v: JsValue) {
    v.Str? && v.s in list
  }

  /** All five fields truthy, then the catalog file present, then the type, the manufacturer and
      the model each in its own distinct column of the catalog; the first failing check decides.
      The three columns are checked independently of one another. */
  function CheckDevice(q: DeviceRequest, csv: Option<seq<CatalogRow>>): (v: DeviceVerdict)
    ensures v == FieldsRequired <==> (!Truthy(q.selectedType) || !Truthy(q.selectedManufacturer)
      || !Truthy(q.selectedModel) || !Truthy(q.username) || !Truthy(q.id))
    ensures v == CsvMissing ==> csv.None?
    ensures v == InvalidType ==> csv.Some? && !Offered(DeviceTypes(csv.value), q.selectedType)
    ensures v == InvalidManufacturer ==> (csv.Some? && Offered(DeviceTypes(csv.value), q.selectedType)
      && !Offered(Manufacturers(csv.value), q.selectedManufacturer))
    ensures v == InvalidModel ==> (csv.Some? && Offered(DeviceTypes(csv.value), q.selectedType)
      && Offered(Manufacturers(csv.value), q.selectedManufacturer) && !Offered(Models(csv.value), q.selectedModel))
    ensures v == Listed <==> (v != FieldsRequired && csv.Some? && Offered(DeviceTypes(csv.value), q.selectedType)
      && Offered(Manufacturers(csv.value), q.selectedManufacturer) && Offered(Models(csv.value), q.selectedModel))
  {
    if !Truthy(q.selectedType) || !Truthy(q.selectedManufacturer) || !Truthy(q.selectedModel)
      || !Truthy(q.username) || !Truthy(q.id) then FieldsRequired
    else if csv.None? then CsvMissing
    else if !Offered(DeviceTypes(csv.value), q.selectedType) then InvalidType
    else if !Offered(Manufacturers(csv.value), q.selectedManufacturer) then InvalidManufacturer
    else if !Offered(Models(csv.value), q.selectedModel) then InvalidModel
    else Listed
  }

  /** A type, a manufacturer and a model that each occur in the catalog pass the checks even
      when no catalog row has all three. */
  lemma CheckDeviceColumnsIndependent(rows: seq<CatalogRow>, q: DeviceRequest, r1: CatalogRow, r2: CatalogRow, r3: CatalogRow)
    requires Truthy(q.username) && Truthy(q.id)
    requires r1 in rows && r2 in rows && r3 in rows
    requires r1.subcategory.Some? && r1.subcategory.value != "" && q.selectedType == Str(r1.subcategory.value)
    requires r2.manufacturer.Some? && r2.manufacturer.value != "" && q.selectedManufacturer == Str(r2.manufacturer.value)
    requires ModelName(r3) != "" && q.selectedModel == Str(ModelName(r3))
    ensures CheckDevice(q, Some(rows)) == Listed
  {
    TypeOffered(rows, r1);
    ManufacturerOffered(rows, r2);
    ModelOffered(rows, r3);
    OfferedIsListed(q, rows);
  }

  /** Five truthy fields and three offered values make a listed device. */
  lemma OfferedIsListed(q: DeviceRequest, rows: seq<CatalogRow>)
    requires Truthy(q.selectedType) && Truthy(q.selectedManufacturer) && Truthy(q.selectedModel)
    requires Truthy(q.username) && Truthy(q.id)
    requires Offered(DeviceTypes(rows), q.selectedType) && Offered(Manufacturers(rows), q.selectedManufacturer)
    requires Offered(Models(rows), q.selectedModel)
    ensures CheckDevice(q, Some(rows)) == Listed
  {
  }

  /** Every row's type, manufacturer and trimmed model name is offered. */
  lemma TypeOffered(rows: seq<CatalogRow>, r: CatalogRow)
    requires r in rows && r.subcategory.Some?
    ensures Offered(DeviceTypes(rows), Str(r.subcategory.value))
  {
    assert OrEmpty(r.subcategory) == r.subcategory.value;
    DeviceTypesExact(rows, r.subcategory.value);
  }

  lemma ManufacturerOffered(rows: seq<CatalogRow>, r: CatalogRow)
    requires r in rows && r.manufacturer.Some?
    ensures Offered(Manufacturers(rows), Str(r.manufacturer.value))
  {
    assert OrEmpty(r.manufacturer) == r.manufacturer.value;
    ManufacturersExact(rows, r.manufacturer.value);
  }

  lemma ModelOffered(rows: seq<CatalogRow>, r: CatalogRow)
    requires r in rows
    ensures Offered(Models(rows), Str(ModelName(r)))
  {
    ModelsExact(rows, ModelName(r));
  }

  /** The emission written by `updateDeviceEmissions`: `parseFloat(lifetime) *
      parseFloat(gwp_total)`, refused when a field is falsy or the product is NaN. */
  function DeviceEmission(q: EmissionsUpdate): (e: Option<real>)
    ensures e.None? <==> (!Truthy(q.deviceid) || !Truthy(q.lifetime) || !Truthy(q.gwpTotal)
      || ParseFloatOf(q.lifetime).NaN? || ParseFloatOf(q.gwpTotal).NaN?)
    ensures e.Some? ==> e.value == ParseFloatOf(q.lifetime).r * ParseFloatOf(q.gwpTotal).r
  {
    if !Truthy(q.deviceid) || !Truthy(q.lifetime) || !Truthy(q.gwpTotal) then None
    else
      var x := Mul(ParseFloatOf(q.lifetime), ParseFloatOf(q.gwpTotal));
      if x.NaN? then None else Some(x.r)
  }

  /** A device's key as a numeric cell, for `WHERE deviceid = ?`. */
  function DeviceKey(d: DeviceRow): Cell {
    Some(d.deviceid as real)
  }

  /** `SELECT * FROM Devices WHERE userid = ?`, in table order. */
  function OwnedDevices(devices: seq<DeviceRow>, userid: JsValue): (r: seq<DeviceRow>)
    ensures |r| <= |devices|
  {
    Filter(devices, (d: DeviceRow) => Matches(d.userid, userid))
  }

  lemma OwnedDevicesExact(devices: seq<DeviceRow>, userid: JsValue, d: DeviceRow)
    ensures d in OwnedDevices(devices, userid) <==> d in devices && Matches(d.userid, userid)
  {
    FilterMembers(devices, (d: DeviceRow) => Matches(d.userid, userid), d);
  }

  /** `SELECT * FROM EnergyData WHERE deviceid = ?`, in table order. */
  function DeviceReadings(rows: seq<EnergyRow>, deviceid: JsValue): (r: seq<EnergyRow>)
    ensures |r| <= |rows|
  {
    Filter(rows, (e: EnergyRow) => Matches(e.deviceid, deviceid))
  }

  lemma DeviceReadingsExact(rows: seq<EnergyRow>, deviceid: JsValue, e: EnergyRow)
    ensures e in DeviceReadings(rows, deviceid) <==> e in rows && Matches(e.deviceid, deviceid)
  {
    FilterMembers(rows, (e: EnergyRow) => Matches(e.deviceid, deviceid), e);
  }

  /** One point of the manufacturing chart: `SELECT deviceid, MFEmissions`. */
  datatype MfPoint = MfPoint(deviceid: nat, mfEmissions: Cell)

  function MfPoints(ds: seq<DeviceRow>): (r: seq<MfPoint>)
    ensures |r| == |ds|
    ensures forall i :: 0 <= i < |ds| ==> r[i] == MfPoint(ds[i].deviceid, ds[i].mfEmissions)
  {
    seq(|ds|, i requires 0 <= i < |ds| => MfPoint(ds[i].deviceid, ds[i].mfEmissions))
  }

  /** The sum of the manufacturing emissions of some chart points, starting from 0. A NULL
      emission arrives as `null`, which adds as 0. */
  function Total(points: seq<MfPoint>): (t: real)
    ensures points == [] ==> t == 0.0
    decreases |points|
  {
    if points == [] then 0.0
    else Total(points[..|points| - 1]) + CellOrZero(points[|points| - 1].mfEmissions)
  }

  /** A cell read as a number, NULL as 0: `data.x || 0` and `null` in a sum both give 0. */
  function CellOrZero(c: Cell): real {
    if c.Some? then c.value else 0.0
  }

  /** The total splits over any division of the device list. */
  lemma {:induction false} TotalAppend(a: seq<MfPoint>, b: seq<MfPoint>)
    ensures Total(a + b) == Total(a) + Total(b)
    decreases |b|
  {
    if b != [] {
      assert (a + b)[..|a + b| - 1] == a + b[..|b| - 1];
      TotalAppend(a, b[..|b| - 1]);
    } else {
      assert a + b == a;
    }
  }

  /** With no negative emission recorded, a total is never negative. */
  lemma {:induction false} TotalNonNegative(points: seq<MfPoint>)
    requires forall i :: 0 <= i < |points| ==> CellOrZero(points[i].mfEmissions) >= 0.0
    ensures Total(points) >= 0.0
    decreases |points|
  {
    if points != [] {
      TotalNonNegative(points[..|points| - 1]);
    }
  }

  /** One row of `AverageEnergyData a JOIN ChargingEmissions c ON a.sessionID = c.sessionID`. */
  datatype Joined = Joined(a: AverageRow, c: ChargingRow)

  predicate SameSession(a: AverageRow, c: ChargingRow) {
    c.sessionID == Some(a.sessionID as real)
  }

  predicate OwnedBy(a: AverageRow, userid: JsValue, deviceid: JsValue) {
    Matches(a.userid, userid) && Matches(a.deviceid, deviceid)
  }

  function Pairs(a: AverageRow, cs: seq<ChargingRow>): (r: seq<Joined>)
    ensures |r| == |cs| && forall i :: 0 <= i < |cs| ==> r[i] == Joined(a, cs[i])
  {
    seq(|cs|, i requires 0 <= i < |cs| => Joined(a, cs[i]))
  }

  /** The join filtered by `WHERE a.userid = ? AND a.deviceid = ?`, before any ordering: each
      aggregate of the user's device paired with every emission row of its session. */
  function Join(avg: seq<AverageRow>, chg: seq<ChargingRow>, userid: JsValue, deviceid: JsValue): seq<Joined>
    decreases |avg|
  {
    if avg == [] then []
    else
      var a := avg[|avg| - 1];
      Join(avg[..|avg| - 1], chg, userid, deviceid)
        + (if OwnedBy(a, userid, deviceid) then Pairs(a, Filter(chg, (c: ChargingRow) => SameSession(a, c))) else [])
  }

  /** The join holds exactly the pairs of an aggregate of that user and device with an emission
      row of the same session. */
  lemma {:induction false} JoinExact(avg: seq<AverageRow>, chg: seq<ChargingRow>, userid: JsValue, deviceid: JsValue, j: Joined)
    ensures j in Join(avg, chg, userid, deviceid) <==>
      (j.a in avg && j.c in chg && SameSession(j.a, j.c) && OwnedBy(j.a, userid, deviceid))
    decreases |avg|
  {
    if avg != [] {
      var init := avg[..|avg| - 1];
      var a := avg[|avg| - 1];
      JoinExact(init, chg, userid, deviceid, j);
      var p := (c: ChargingRow) => SameSession(a, c);
      FilterMembers(chg, p, j.c);
      assert avg == init + [a];
      if OwnedBy(a, userid, deviceid) {
        var cs := Filter(chg, p);
        if j.a == a && j.c in cs {
          var i :| 0 <= i < |cs| && cs[i] == j.c;
          assert Pairs(a, cs)[i] == j;
        }
      }
    }
  }

  /** Sort keys: `ORDER BY a.timestamp DESC` and `ORDER BY a.timestamp`. */
  function NewestFirst(j: Joined): real { -(j.a.timestamp as real) }

  function OldestFirst(j: Joined): real { j.a.timestamp as real }

  /** The rows `fetchData` sends to the prediction service. */
  function PredictionData(rows: seq<Joined>): (r: seq<PredictRow>)
    ensures |r| == |rows|
    ensures forall i :: 0 <= i < |rows| ==>
      r[i] == PredictRow(rows[i].a.avgPower, rows[i].a.timeElapsed, rows[i].c.pcEmissions)
  {
    seq(|rows|, i requires 0 <= i < |rows| => PredictRow(rows[i].a.avgPower, rows[i].a.timeElapsed, rows[i].c.pcEmissions))
  }

  /** `rows[i]` has a maximal time stamp. */
  predicate IsLatest(rows: seq<AverageRow>, i: nat)
    requires i < |rows|
  {
    forall j :: 0 <= j < |rows| ==> rows[j].timestamp <= rows[i].timestamp
  }

  /** After a row stamped later than every earlier row is appended, it is the only latest one. */
  lemma LatestIsAppended(rows: seq<AverageRow>, r: AverageRow, i: nat)
    requires forall j :: 0 <= j < |rows| ==> rows[j].timestamp < r.timestamp
    requires i < |rows| + 1 && IsLatest(rows + [r], i)
    ensures i == |rows|
  {
    var s := rows + [r];
    assert s[|rows|] == r;
    if i < |rows| {
      assert false;
    }
  }
}
