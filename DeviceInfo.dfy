/** The device page: the manufacturing emission of the device, looked up in the catalog and
    written back to the device's row, and the usage-emission calculator. The emission-factor
    lookup it shares with the smart-plug panel is `Catalog.FindEF`. */
module DeviceInfo {
  import opened Wrappers
  import opened Text
  import opened Js
  import opened Sequences
  import opened Catalog
  import opened Records

  /** `item.subcategory === type && item.manufacturer === manufacturer && item.name.trim() === model`. */
  predicate Hit(r: CatalogRow, t: string, m: string, model: string) {
    r.subcategory == Some(t) && r.manufacturer == Some(m) && r.name.Some? && StrTrim(r.name.value) == model
  }

  /** The same test on a row of that type and manufacturer without a name: `item.name.trim()`
      throws. */
  predicate Throws(r: CatalogRow, t: string, m: string) {
    r.subcategory == Some(t) && r.manufacturer == Some(m) && r.name.None?
  }

  /** The outcome of `csvData.find(...)`: the index of the row found, no row, or the error
      thrown at a nameless row before any hit. */
  datatype CatalogMatch = Found(index: nat) | NoMatch | NameMissing(at: nat)

  function FindCatalogRow(csv: seq<CatalogRow>, t: string, m: string, model: string): (r: CatalogMatch)
    ensures r.Found? ==> r.index < |csv| && Hit(csv[r.index], t, m, model)
    ensures r.Found? ==> forall j :: 0 <= j < r.index ==> !Hit(csv[j], t, m, model) && !Throws(csv[j], t, m)
    ensures r.NameMissing? ==> r.at < |csv| && Throws(csv[r.at], t, m)
    ensures r.NameMissing? ==> forall j :: 0 <= j < r.at ==> !Hit(csv[j], t, m, model) && !Throws(csv[j], t, m)
    ensures r.NoMatch? ==> forall j :: 0 <= j < |csv| ==> !Hit(csv[j], t, m, model) && !Throws(csv[j], t, m)
  {
    match FindFirst(csv, (r: CatalogRow) => Hit(r, t, m, model) || Throws(r, t, m))
    case None => NoMatch
    case Some(i) => if Hit(csv[i], t, m, model) then Found(i) else NameMissing(i)
  }

  /** A catalog cell as the JavaScript value read from the row. */
  function CellValue(c: Option<string>): JsValue {
    match c
    case Some(s) => Str(s)
    case None => Undefined
  }

  /** `parseFloat(lifetime) * parseFloat(gwp_total)`. */
  function ManufacturingEmission(r: CatalogRow): (e: Number)
    ensures e.Finite? <==> ParseFloatOf(CellValue(r.lifetime)).Finite? && ParseFloatOf(CellValue(r.gwpTotal)).Finite?
    ensures e.Finite? ==> e.r == ParseFloatOf(CellValue(r.lifetime)).r * ParseFloatOf(CellValue(r.gwpTotal)).r
  {
    Mul(ParseFloatOf(CellValue(r.lifetime)), ParseFloatOf(CellValue(r.gwpTotal)))
  }

  /** What the manufacturing effect does: nothing until the device and the catalog are
      loaded; then it fails at a nameless row, clears the emission when no row matches, or
      shows the emission and posts the row's `lifetime` and `gwp_total` for the route's
      device. */
  datatype ManufacturingResult =
    | Waiting
    | Crashed
    | Unmatched
    | Matched(emission: Number, update: EmissionsUpdate)

  function ManufacturingEffect(details: Option<DeviceRow>, csv: seq<CatalogRow>, deviceid: JsValue): (res: ManufacturingResult)
    ensures details.None? || csv == [] <==> res.Waiting?
    ensures res.Matched? ==> res.update.deviceid == deviceid
  {
    if details.None? || csv == [] then Waiting
    else
      var d := details.value;
      match FindCatalogRow(csv, d.deviceType, d.manufacturer, d.model)
      case NameMissing(_) => Crashed
      case NoMatch => Unmatched
      case Found(i) => MatchedRow(csv[i], deviceid)
  }

  /** The effect's result for the catalog row found: the emission shown and the cells posted. */
  function MatchedRow(r: CatalogRow, deviceid: JsValue): (res: ManufacturingResult)
    ensures res.Matched? && res.emission == ManufacturingEmission(r)
    ensures res.update == EmissionsUpdate(deviceid, CellValue(r.lifetime), CellValue(r.gwpTotal))
  {
    Matched(ManufacturingEmission(r), EmissionsUpdate(deviceid, CellValue(r.lifetime), CellValue(r.gwpTotal)))
  }

  /** The effect uses the first catalog row that matches the device's type, manufacturer and
      trimmed model name, provided no nameless row of that type and manufacturer comes first. */
  lemma ManufacturingFirstMatch(d: DeviceRow, csv: seq<CatalogRow>, deviceid: JsValue, i: nat)
    requires i < |csv| && Hit(csv[i], d.deviceType, d.manufacturer, d.model)
    requires forall j :: 0 <= j < i ==> !Hit(csv[j], d.deviceType, d.manufacturer, d.model)
    requires forall j :: 0 <= j < i ==> !Throws(csv[j], d.deviceType, d.manufacturer)
    ensures ManufacturingEffect(Some(d), csv, deviceid) == MatchedRow(csv[i], deviceid)
  {
    FirstHitFound(csv, d.deviceType, d.manufacturer, d.model, i);
  }

  /** The search stops at the first hit when no nameless row precedes it. */
  lemma FirstHitFound(csv: seq<CatalogRow>, t: string, m: string, model: string, i: nat)
    requires i < |csv| && Hit(csv[i], t, m, model)
    requires forall j :: 0 <= j < i ==> !Hit(csv[j], t, m, model) && !Throws(csv[j], t, m)
    ensures FindCatalogRow(csv, t, m, model) == Found(i)
  {
    match FindCatalogRow(csv, t, m, model)
    case Found(x) =>
      assert !(x < i) && !(i < x);
    case NameMissing(x) =>
      assert false;
    case NoMatch =>
      assert false;
  }

  /** An empty or missing cell parses to NaN, so a falsy cell never yields a number. */
  lemma FalsyCellIsNaN(c: Option<string>)
    requires !Truthy(CellValue(c))
    ensures ParseFloatOf(CellValue(c)).NaN?
  {
    if c.Some? {
      assert c.value == "";
      assert TrimStart(c.value, IsSpace) == "";
    }
  }

  /** The server computes from the posted cells exactly the emission the page shows: the
      product when it is a number, and a refusal (writing nothing) when it is NaN. */
  lemma UpdateAgrees(d: DeviceRow, csv: seq<CatalogRow>, deviceid: JsValue)
    requires Truthy(deviceid)
    requires ManufacturingEffect(Some(d), csv, deviceid).Matched?
    ensures var res := ManufacturingEffect(Some(d), csv, deviceid);
      DeviceEmission(res.update) == (if res.emission.Finite? then Some(res.emission.r) else None)
  {
    var res := ManufacturingEffect(Some(d), csv, deviceid);
    var i := FindCatalogRow(csv, d.deviceType, d.manufacturer, d.model).index;
    var r := csv[i];
    if !Truthy(CellValue(r.lifetime)) {
      FalsyCellIsNaN(r.lifetime);
    }
    if !Truthy(CellValue(r.gwpTotal)) {
      FalsyCellIsNaN(r.gwpTotal);
    }
  }

  /** `parseFloat(time.hours) + parseFloat(time.minutes) / 60`. */
  function Hours(hours: JsValue, minutes: JsValue): (h: Number)
    ensures h.Finite? <==> ParseFloatOf(hours).Finite? && ParseFloatOf(minutes).Finite?
    ensures h.Finite? ==> h.r == ParseFloatOf(hours).r + ParseFloatOf(minutes).r / 60.0
  {
    var m := ParseFloatOf(minutes);
    Add(ParseFloatOf(hours), if m.Finite? then Finite(m.r / 60.0) else NaN)
  }

  /** The calculator's results: energy in kWh, the emission and the duration in hours, the last
      two as `toFixed(3)` values. */
  datatype Usage = Usage(energy: real, emissions: Number, timeElapsed: real)

  /** The arithmetic of the calculator once the inputs are numbers: `power * hours`, then
      `(energy * ef).toFixed(3)` and `hours.toFixed(3)`; NaN hours end it early. */
  function UsageFrom(power: real, h: Number, ef: Number): (u: Option<Usage>)
    ensures u.None? <==> h.NaN?
    ensures u.Some? ==> u.value.energy == power * h.r
    ensures u.Some? ==> -0.0005 <= u.value.timeElapsed - h.r <= 0.0005
    ensures u.Some? ==> (u.value.emissions.Finite? <==> ef.Finite?)
    ensures u.Some? && u.value.emissions.Finite? ==> -0.0005 <= u.value.emissions.r - u.value.energy * ef.r <= 0.0005
  {
    var energy := Mul(Finite(power), h);
    if energy.NaN? then None
    else Some(Usage(energy.r, ToFixed3(Mul(energy, ef)), Round3(h.r)))
  }

  /** `handleCalculateEmissions` up to the post: `None` when it returns early. The power is
      `parseFloat(powerConsumed) || 0`. */
  function CalculateUsage(power: string, hours: JsValue, minutes: JsValue, ef: JsValue): (u: Option<Usage>)
    ensures u.None? <==> power == "" || !Truthy(hours) || !Truthy(ef) || Hours(hours, minutes).NaN?
    ensures u.Some? ==> Hours(hours, minutes).Finite? && u.value.energy == OrZero(ParseFloat(power)) * Hours(hours, minutes).r
  {
    if power == "" || !Truthy(hours) || !Truthy(ef) then None
    else UsageFrom(OrZero(ParseFloat(power)), Hours(hours, minutes), ToNumber(ef))
  }

  /** The displayed duration is the hours to three decimals. */
  lemma CalculatedDuration(power: string, hours: JsValue, minutes: JsValue, ef: JsValue)
    requires CalculateUsage(power, hours, minutes, ef).Some?
    ensures var h := Hours(hours, minutes);
      h.Finite? && -0.0005 <= CalculateUsage(power, hours, minutes, ef).value.timeElapsed - h.r <= 0.0005
  {
    var h := Hours(hours, minutes);
    assert CalculateUsage(power, hours, minutes, ef) == UsageFrom(OrZero(ParseFloat(power)), h, ToNumber(ef));
  }

  /** The emission is `toFixed(3)` of the energy times the factor, the factor converted as `*`
      converts it; so it is within half a thousandth of that product, and NaN exactly when the
      factor is not a number. */
  lemma CalculatedEmission(power: string, hours: JsValue, minutes: JsValue, ef: JsValue)
    requires CalculateUsage(power, hours, minutes, ef).Some?
    ensures var u := CalculateUsage(power, hours, minutes, ef).value;
      u.emissions == ToFixed3(Mul(Finite(u.energy), ToNumber(ef)))
  {
    assert CalculateUsage(power, hours, minutes, ef) == UsageFrom(OrZero(ParseFloat(power)), Hours(hours, minutes), ToNumber(ef));
  }

  /** The body posted to `storeUsageEmissions`: the power exactly as typed. */
  function UsageRequestOf(deviceid: JsValue, userid: JsValue, power: string, u: Usage): UsageRequest {
    UsageRequest(deviceid, userid, Str(power), Num(u.timeElapsed), FixedToJson(u.emissions))
  }

  /** The post the calculator makes, if any; a calculation that returns early posts nothing. */
  function HandleCalculateEmissions(deviceid: JsValue, userid: JsValue, power: string, hours: JsValue,
                                    minutes: JsValue, ef: JsValue): (q: Option<UsageRequest>)
    ensures q.Some? <==> CalculateUsage(power, hours, minutes, ef).Some?
    ensures q.Some? ==> q.value.power == Str(power) && q.value.deviceid == deviceid && q.value.userid == userid
    ensures q.Some? ==> var u := CalculateUsage(power, hours, minutes, ef).value;
      q.value.timeElapsed == Num(u.timeElapsed) && q.value.usEmissions == FixedToJson(u.emissions)
  {
    match CalculateUsage(power, hours, minutes, ef)
    case None => None
    case Some(u) => Some(UsageRequestOf(deviceid, userid, power, u))
  }

  /** The hours field starts as the number 0, which is falsy: whatever the minutes, the
      calculation does nothing until hours are typed. */
  lemma ZeroHoursAborts(power: string, minutes: JsValue, ef: JsValue)
    ensures CalculateUsage(power, Num(0.0), minutes, ef).None?
  {
  }

  /** Typed hours are a string, and the string "0" is truthy, so "0" hours with "30" minutes typed
      does compute, over half an hour. */
  lemma TypedZeroHoursComputes(power: string, ef: JsValue)
    requires power != "" && Truthy(ef)
    ensures Hours(Str("0"), Str("30")) == Finite(0.5)
    ensures CalculateUsage(power, Str("0"), Str("30"), ef).Some?
    ensures CalculateUsage(power, Str("0"), Str("30"), ef).value.energy == OrZero(ParseFloat(power)) * 0.5
  {
    ZeroAndHalfHour();
    var h := Hours(Str("0"), Str("30"));
    assert CalculateUsage(power, Str("0"), Str("30"), ef) == UsageFrom(OrZero(ParseFloat(power)), h, ToNumber(ef));
  }

  lemma ZeroAndHalfHour()
    ensures Hours(Str("0"), Str("30")) == Finite(0.5)
  {
    ParseTypedId(0, "0");
    ParseTypedId(30, "30");
  }

  /** A typed whole number parses to itself. */
  lemma ParseTypedId(n: nat, s: string)
    requires s == DecimalString(n)
    ensures ParseFloatOf(Str(s)) == Finite(n as real)
  {
    ParseDecimalString(n);
  }
}
