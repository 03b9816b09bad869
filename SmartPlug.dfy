/** The smart-plug panel of the dashboard. While a charging session is being recorded, a timer
    posts one energy sample per reading of the plug. Stopping the session averages the device's
    samples, stores the aggregate, empties the sample table, asks for the latest session key and
    stores the session's emission under it. Timer ticks, clock readings and the replies of the plug
    bridge are the arguments of the methods. */
module SmartPlug {
  import opened Wrappers
  import opened Js
  import opened Http
  import opened Sql
  import opened Catalog
  import opened Records
  import opened Espconn
  import opened Server

  /** The four readings a sample holds, as the averaging loop reads them. */
  datatype Reading = Current | Voltage | Power | Energy

  function CellOf(r: EnergyRow, f: Reading): Cell {
    match f
    case Current => r.current
    case Voltage => r.voltage
    case Power => r.power
    case Energy => r.energy
  }

  /** The running total of one reading over the samples. */
  function SumOf(rows: seq<EnergyRow>, f: Reading): real
    decreases |rows|
  {
    if rows == [] then 0.0 else SumOf(rows[..|rows| - 1], f) + CellOrZero(CellOf(rows[|rows| - 1], f))
  }

  /** `(sum / count).toFixed(3)`, sent as its numeric value. */
  function Average(rows: seq<EnergyRow>, f: Reading): (a: real)
    requires rows != []
    ensures -0.0005 <= a - SumOf(rows, f) / |rows| as real <= 0.0005
  {
    Round3(SumOf(rows, f) / |rows| as real)
  }

  /** Bounds on every reading bound the total. */
  lemma {:induction false} SumOfBounds(rows: seq<EnergyRow>, f: Reading, lo: real, hi: real)
    requires forall i :: 0 <= i < |rows| ==> lo <= CellOrZero(CellOf(rows[i], f)) <= hi
    ensures |rows| as real * lo <= SumOf(rows, f) <= |rows| as real * hi
    decreases |rows|
  {
    if rows != [] {
      var init := rows[..|rows| - 1];
      var x := CellOrZero(CellOf(rows[|rows| - 1], f));
      forall i | 0 <= i < |init|
        ensures lo <= CellOrZero(CellOf(init[i], f)) <= hi
      {
        assert init[i] == rows[i];
      }
      SumOfBounds(init, f, lo, hi);
      BoundsStep(|init|, lo, hi, SumOf(init, f), x);
      assert |init| + 1 == |rows|;
    }
  }

  /** One more term within the bounds keeps the total within them. */
  lemma BoundsStep(k: nat, lo: real, hi: real, s: real, x: real)
    requires k as real * lo <= s <= k as real * hi && lo <= x <= hi
    ensures (k + 1) as real * lo <= s + x <= (k + 1) as real * hi
  {
    var n := k as real;
    assert (k + 1) as real == n + 1.0;
    assert (n + 1.0) * lo == n * lo + lo;
    assert (n + 1.0) * hi == n * hi + hi;
  }

  /** The stored average lies between the least and the greatest reading, up to the rounding
      to three decimals. */
  lemma AverageBounds(rows: seq<EnergyRow>, f: Reading, lo: real, hi: real)
    requires rows != []
    requires forall i :: 0 <= i < |rows| ==> lo <= CellOrZero(CellOf(rows[i], f)) <= hi
    ensures lo - 0.0005 <= Average(rows, f) <= hi + 0.0005
  {
    SumOfBounds(rows, f, lo, hi);
    var n := |rows| as real;
    var m := SumOf(rows, f) / n;
    assert n * lo <= n * m <= n * hi;
    assert lo <= m <= hi;
  }

  /** `((endTime - startTime) / 1000).toFixed(3)` in seconds, from clock readings in
      milliseconds; a session never started has a null start time, which counts as 0. */
  function Elapsed(start: Option<int>, now: int): (e: real)
    ensures -0.0005 <= e - (now - start.GetOr(0)) as real / 1000.0 <= 0.0005
  {
    Round3((now - start.GetOr(0)) as real / 1000.0)
  }

  /** `(selectedEF ? selectedEF * avgPower * elapsed * 0.001 : 0).toFixed(3)`. */
  function SessionEmission(ef: JsValue, avgPower: real, elapsed: real): (r: Number)
    ensures !Truthy(ef) ==> r == Finite(0.0)
    ensures Truthy(ef) ==> (r.Finite? <==> ToNumber(ef).Finite?)
    ensures Truthy(ef) && r.Finite? ==>
      -0.0005 <= r.r - ToNumber(ef).r * avgPower * elapsed * 0.001 <= 0.0005
  {
    if Truthy(ef) then ToFixed3(Mul(Mul(Mul(ToNumber(ef), Finite(avgPower)), Finite(elapsed)), Finite(0.001)))
    else Finite(0.0)
  }

  /** The five numbers the timer callback computes from a reading: the parsed current,
      voltage, power and energy, and the manufacturing emission `ef * parseFloat(kWh)`. */
  datatype Sample = Sample(current: Number, voltage: Number, power: Number, energy: Number, mfEmissions: Number)

  function SampleOf(d: Readings, ef: JsValue): Sample {
    Sample(ParseFloat(d.irms), ParseFloat(d.vrms), ParseFloat(d.power), ParseFloat(d.kwh),
      Mul(ToNumber(ef), ParseFloat(d.kwh)))
  }

  /** The body of one `storeEnergyData` post, NaN being sent as null. */
  function SampleRequest(deviceID: JsValue, x: Sample): EnergyRequest {
    EnergyRequest(deviceID, ToJson(x.current), ToJson(x.voltage), ToJson(x.power), ToJson(x.energy), ToJson(x.mfEmissions))
  }

  function AsCell(x: Number): Cell {
    if x.Finite? then Some(x.r) else None
  }

  /** `ToJson` never produces a value the database refuses. */
  lemma ToJsonStored(x: Number)
    ensures StoreCell(ToJson(x)) == Stored(AsCell(x))
  {
  }

  /** A sample post is accepted whenever its device key is truthy and can be stored, and the
      row holds the five numbers, NULL for each NaN. */
  lemma SampleRow(v: JsValue, x: Sample)
    requires Truthy(v) && StoreCell(v).Stored?
    ensures var r := EnergyRowOf(SampleRequest(v, x));
      r.Accepted? && r.row == EnergyRow(StoreCell(v).cell, AsCell(x.current), AsCell(x.voltage),
        AsCell(x.power), AsCell(x.energy), AsCell(x.mfEmissions))
  {
    var q := SampleRequest(v, x);
    ToJsonStored(x.current);
    ToJsonStored(x.voltage);
    ToJsonStored(x.power);
    ToJsonStored(x.energy);
    ToJsonStored(x.mfEmissions);
    var cs := [StoreCell(v).cell, AsCell(x.current), AsCell(x.voltage), AsCell(x.power),
      AsCell(x.energy), AsCell(x.mfEmissions)];
    StoreAllOf(q.Fields(), cs);
  }

  /** For a device key that can be stored, each connected reading yields exactly one sample: the
      readings as parsed (NULL where no number could be read) and the emission factor times the
      energy; with no country chosen the factor is null, which multiplies as 0. */
  lemma SampleAccepted(deviceID: JsValue, d: Readings, ef: JsValue)
    requires Truthy(deviceID) && StoreCell(deviceID).Stored?
    ensures Sampled(deviceID, SampleOf(d, ef)) == [EnergyRow(StoreCell(deviceID).cell,
      AsCell(ParseFloat(d.irms)), AsCell(ParseFloat(d.vrms)), AsCell(ParseFloat(d.power)),
      AsCell(ParseFloat(d.kwh)), AsCell(Mul(ToNumber(ef), ParseFloat(d.kwh))))]
    ensures ef.Null? && ParseFloat(d.kwh).Finite? ==>
      Sampled(deviceID, SampleOf(d, ef))[0].mfEmissions == Some(0.0)
  {
    SampleRow(deviceID, SampleOf(d, ef));
  }

  /** The rows one sample post appends: none when the request is refused. */
  function Sampled(deviceID: JsValue, x: Sample): (rows: seq<EnergyRow>)
    ensures |rows| <= 1
    ensures rows != [] ==> Matches(rows[0].deviceid, deviceID)
  {
    var r := EnergyRowOf(SampleRequest(deviceID, x));
    if r.Accepted? then [r.row] else []
  }

  /** The `storeEnergyData` post of one tick. */
  method PostSample(deviceID: JsValue, x: Sample, db: Database)
    requires db.Valid()
    modifies db
    ensures db.Valid()
    ensures db.State() == old(db.State()).(energyData := old(db.energyData) + Sampled(deviceID, x))
  {
    var st := db.StoreEnergyData(SampleRequest(deviceID, x));
  }

  /** The timer callback once the bridge has replied: a connected reply posts its sample. */
  method PostReply(deviceID: JsValue, reply: Reply, ef: JsValue, db: Database)
    requires db.Valid()
    modifies db
    ensures db.Valid()
    ensures reply.Connected? ==>
      db.State() == old(db.State()).(energyData := old(db.energyData) + Sampled(deviceID, SampleOf(reply.data, ef)))
    ensures reply.Failed? ==> db.State() == old(db.State())
  {
    if reply.Connected? {
      PostSample(deviceID, SampleOf(reply.data, ef), db);
    }
  }

  /** The body of the `storeAverageEnergyData` post that ends a session. */
  function SessionRequest(deviceID: JsValue, userId: JsValue, rows: seq<EnergyRow>, start: Option<int>, now: int): AverageRequest
    requires rows != []
  {
    AverageRequest(deviceID, userId, Num(Average(rows, Current)), Num(Average(rows, Voltage)),
      Num(Average(rows, Power)), Num(Average(rows, Energy)), Num(Elapsed(start, now)))
  }

  /** The body of the `storeChargingEmissionsData` post. */
  function EmissionRequest(sessionID: JsValue, deviceID: JsValue, userId: JsValue, emission: Number): ChargingRequest {
    ChargingRequest(sessionID, deviceID, userId, FixedToJson(emission))
  }

  /** The rows a successful charging post appends. */
  function Appended(q: ChargingRequest): seq<ChargingRow> {
    if ChargingRowOf(q).Accepted? then [ChargingRowOf(q).row] else []
  }

  /** The component's state. */
  datatype PlugState = PlugState(
    efData: seq<EfRow>, selectedCountry: string, selectedEF: JsValue,
    storing: bool, startTime: Option<int>, tickEF: JsValue)

  class SmartPlug {
    /** The device of the page (a route parameter) and the signed-in user. */
    const deviceID: JsValue
    const userId: JsValue
    var efData: seq<EfRow>
    var selectedCountry: string
    var selectedEF: JsValue
    var storing: bool
    var startTime: Option<int>
    /** The emission factor the running timer was created with: its callback keeps the value
        of `selectedEF` from the moment the session started. */
    var tickEF: JsValue

    function State(): PlugState
      reads this
    {
      PlugState(efData, selectedCountry, selectedEF, storing, startTime, tickEF)
    }

    constructor(deviceID: JsValue, userId: JsValue)
      ensures this.deviceID == deviceID && this.userId == userId
      ensures State() == PlugState([], "", Null, false, None, Null)
    {
      this.deviceID := deviceID;
      this.userId := userId;
      efData := [];
      selectedCountry := "";
      selectedEF := Null;
      storing := false;
      startTime := None;
      tickEF := Null;
    }

    /** The parsed factor table, keeping the rows that name a country. */
    method LoadEfData(rows: seq<EfRow>)
      modifies this
      ensures State() == old(State()).(efData := Countries(rows))
    {
      efData := Countries(rows);
    }

    /** Choosing a country selects the factor of its first row, or null. */
    method HandleCountryChange(country: string)
      modifies this
      ensures State() == old(State()).(selectedCountry := country, selectedEF := FindEF(efData, country))
    {
      selectedCountry := country;
      selectedEF := FindEF(efData, country);
    }

    /** Starts a session unless one is running: the start time is taken and the timer created. */
    method StartStoringData(now: int)
      modifies this
      ensures old(storing) ==> State() == old(State())
      ensures !old(storing) ==> State() == old(State()).(storing := true, startTime := Some(now), tickEF := old(selectedEF))
    {
      if !storing {
        storing := true;
        startTime := Some(now);
        tickEF := selectedEF;
      }
    }

    /** One tick of the running timer with the bridge's reply: a connected reply posts one
        sample built with the captured factor; a failed post or a failed reading is dropped. */
    method Tick(reply: Reply, db: Database)
      requires storing
      requires db.Valid()
      modifies db
      ensures db.Valid()
      ensures reply.Connected? ==>
        db.State() == old(db.State()).(energyData := old(db.energyData) + Sampled(deviceID, SampleOf(reply.data, tickEF)))
      ensures reply.Failed? ==> db.State() == old(db.State())
    {
      PostReply(deviceID, reply, tickEF, db);
    }

    /** Ends the session: stops the timer, then averages the device's samples and closes the
        session in the database. A failing request ends the sequence, as the thrown error
        does; no samples means nothing is written. */
    method StopStoringData(now: int, dbNow: int, db: Database)
      requires db.Valid()
      modifies this, db
      ensures db.Valid()
      ensures State() == old(State()).(storing := false)
      ensures var rows := DeviceReadings(old(db.energyData), deviceID);
        if !Truthy(deviceID) || rows == [] then db.State() == old(db.State())
        else SessionClosed(old(db.State()), db.State(), SessionRequest(deviceID, userId, rows, old(startTime), now), dbNow,
          SessionEmission(old(selectedEF), Average(rows, Power), Elapsed(old(startTime), now)))
    {
      storing := false;
      var st, success, rows := db.FetchEnergyData(deviceID);
      if st != Ok || rows == [] {
        return;
      }
      var sumV, sumI, sumP, sumE := SumReadings(rows);
      var count := |rows|;
      var avgV := Round3(sumV / count as real);
      var avgI := Round3(sumI / count as real);
      var avgP := Round3(sumP / count as real);
      var avgE := Round3(sumE / count as real);
      var elapsed := Round3((now - startTime.GetOr(0)) as real / 1000.0);
      var emission := SessionEmission(selectedEF, avgP, elapsed);
      var aq := AverageRequest(deviceID, userId, Num(avgI), Num(avgV), Num(avgP), Num(avgE), Num(elapsed));
      assert aq == SessionRequest(deviceID, userId, rows, startTime, now);
      CloseSession(aq, dbNow, emission, db);
    }
  }

  /** The `forEach` that totals the four readings, a missing one counting as 0. */
  method SumReadings(rows: seq<EnergyRow>) returns (sumV: real, sumI: real, sumP: real, sumE: real)
    ensures sumV == SumOf(rows, Voltage) && sumI == SumOf(rows, Current)
    ensures sumP == SumOf(rows, Power) && sumE == SumOf(rows, Energy)
  {
    sumV, sumI, sumP, sumE := 0.0, 0.0, 0.0, 0.0;
    for i := 0 to |rows|
      invariant sumV == SumOf(rows[..i], Voltage) && sumI == SumOf(rows[..i], Current)
      invariant sumP == SumOf(rows[..i], Power) && sumE == SumOf(rows[..i], Energy)
    {
      assert rows[..i + 1][..i] == rows[..i];
      sumV := sumV + CellOrZero(rows[i].voltage);
      sumI := sumI + CellOrZero(rows[i].current);
      sumP := sumP + CellOrZero(rows[i].power);
      sumE := sumE + CellOrZero(rows[i].energy);
    }
    assert rows[..|rows|] == rows;
  }

  /** The tables `u` after closing a session on tables `t`: the aggregate of `aq` is stored
      under the next session key; if it is refused nothing else happens. Otherwise the sample
      table is emptied and the emission is filed under the key of a latest aggregate. */
  ghost predicate SessionClosed(t: Tables, u: Tables, aq: AverageRequest, dbNow: int, emission: Number) {
    var agg := AverageRowOf(aq, t.nextSessionID, dbNow);
    if !agg.Accepted? then u == t
    else
      && u.energyData == []
      && u.averageEnergyData == t.averageEnergyData + [agg.row]
      && u.nextSessionID == t.nextSessionID + 1
      && u.devices == t.devices && u.usageEmissions == t.usageEmissions && u.nextDeviceID == t.nextDeviceID
      && exists i :: 0 <= i < |u.averageEnergyData| && IsLatest(u.averageEnergyData, i)
           && u.chargingEmissions == t.chargingEmissions
                + Appended(EmissionRequest(Num(u.averageEnergyData[i].sessionID as real), aq.deviceid, aq.userid, emission))
  }

  /** The four requests that close a session: store the aggregate, empty the sample table,
      read back the latest session key and store the emission under it. */
  method CloseSession(aq: AverageRequest, dbNow: int, emission: Number, db: Database)
    requires db.Valid()
    modifies db
    ensures db.Valid()
    ensures SessionClosed(old(db.State()), db.State(), aq, dbNow, emission)
  {
    var st := db.StoreAverageEnergyData(aq, dbNow);
    if st != Ok {
      return;
    }
    st := db.TruncateEnergyData();
    var found, sid := db.FetchRecentAverageEnergyData();
    var cq := EmissionRequest(if found then Num(sid as real) else Undefined, aq.deviceid, aq.userid, emission);
    st := db.StoreChargingEmissionsData(cq);
    ghost var i :| 0 <= i < |db.averageEnergyData| && db.averageEnergyData[i].sessionID == sid
                   && IsLatest(db.averageEnergyData, i);
    assert db.chargingEmissions == old(db.chargingEmissions)
      + Appended(EmissionRequest(Num(db.averageEnergyData[i].sessionID as real), aq.deviceid, aq.userid, emission));
  }

  /** With the database clock past every earlier session, the latest aggregate is the one just
      stored, so the emission is filed under its key and joins with it. */
  lemma ClosedSessionLinked(t: Tables, u: Tables, aq: AverageRequest, dbNow: int, emission: Number)
    requires SessionClosed(t, u, aq, dbNow, emission)
    requires forall j :: 0 <= j < |t.averageEnergyData| ==> t.averageEnergyData[j].timestamp < dbNow
    requires AverageRowOf(aq, t.nextSessionID, dbNow).Accepted?
    ensures var agg := AverageRowOf(aq, t.nextSessionID, dbNow).row;
      var q := EmissionRequest(Num(t.nextSessionID as real), aq.deviceid, aq.userid, emission);
      && u.chargingEmissions == t.chargingEmissions + Appended(q)
      && (ChargingRowOf(q).Accepted? ==> SameSession(agg, ChargingRowOf(q).row))
  {
    var agg := AverageRowOf(aq, t.nextSessionID, dbNow).row;
    var i :| 0 <= i < |u.averageEnergyData| && IsLatest(u.averageEnergyData, i)
           && u.chargingEmissions == t.chargingEmissions
                + Appended(EmissionRequest(Num(u.averageEnergyData[i].sessionID as real), aq.deviceid, aq.userid, emission));
    LatestIsAppended(t.averageEnergyData, agg, i);
    assert u.averageEnergyData[i] == agg;
  }
}
