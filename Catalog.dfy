/** The two CSV tables the application reads: the device catalog `Final_data.csv` and the grid
    emission factors `EF_Electricity_Grid.csv`, each already parsed with a header line into
    one record per row. A cell a short row does not have is `None` (`undefined`). Also the
    option lists derived from the catalog and the emission-factor lookup. */
module Catalog {
  import opened Wrappers
  import opened Text
  import opened Js
  import opened Sequences

  /** The catalog columns the application reads. */
  datatype CatalogRow = CatalogRow(
    subcategory: Option<string>,
    manufacturer: Option<string>,
    name: Option<string>,
    lifetime: Option<string>,
    gwpTotal: Option<string>)

  /** One row of the emission-factor table: `Country` and `EF`. */
  datatype EfRow = EfRow(country: Option<string>, ef: Option<string>)

  /** `cell || ''` on a string cell. */
  function OrEmpty(cell: Option<string>): (s: string)
    ensures cell.Some? && cell.value != "" ==> s == cell.value
    ensures cell.None? || cell.value == "" ==> s == ""
  {
    match cell
    case Some(v) => v
    case None => ""
  }

  /** `item.name ? item.name.trim() : ''`. */
  function ModelName(r: CatalogRow): string {
    match r.name
    case Some(n) => StrTrim(n)
    case None => ""
  }

  function TypeColumn(rows: seq<CatalogRow>): seq<string> {
    seq(|rows|, i requires 0 <= i < |rows| => OrEmpty(rows[i].subcategory))
  }

  function ManufacturerColumn(rows: seq<CatalogRow>): seq<string> {
    seq(|rows|, i requires 0 <= i < |rows| => OrEmpty(rows[i].manufacturer))
  }

  function ModelColumn(rows: seq<CatalogRow>): seq<string> {
    seq(|rows|, i requires 0 <= i < |rows| => ModelName(rows[i]))
  }

  /** The distinct device types, manufacturers and model names of the whole catalog, each in
      first-occurrence order; a missing cell contributes "". */
  function DeviceTypes(rows: seq<CatalogRow>): seq<string> {
    Distinct(TypeColumn(rows))
  }

  function Manufacturers(rows: seq<CatalogRow>): seq<string> {
    Distinct(ManufacturerColumn(rows))
  }

  function Models(rows: seq<CatalogRow>): seq<string> {
    Distinct(ModelColumn(rows))
  }

  /** The distinct manufacturers among the rows of device type `t`. */
  function ManufacturersOfType(rows: seq<CatalogRow>, t: string): seq<string> {
    Manufacturers(Filter(rows, (r: CatalogRow) => r.subcategory == Some(t)))
  }

  /** The distinct trimmed model names among the rows of type `t` and manufacturer `m`. */
  function ModelsOf(rows: seq<CatalogRow>, t: string, m: string): seq<string> {
    Models(Filter(rows, (r: CatalogRow) => r.subcategory == Some(t) && r.manufacturer == Some(m)))
  }

  /** A value is offered as a device type exactly when some row has it as its type (or, for
      "", lacks a type). */
  lemma DeviceTypesExact(rows: seq<CatalogRow>, x: string)
    ensures x in DeviceTypes(rows) <==> exists r :: r in rows && OrEmpty(r.subcategory) == x
  {
    DistinctMembers(TypeColumn(rows), x);
    if x in TypeColumn(rows) {
      var i :| 0 <= i < |rows| && TypeColumn(rows)[i] == x;
      assert rows[i] in rows;
    }
    if exists r :: r in rows && OrEmpty(r.subcategory) == x {
      var r :| r in rows && OrEmpty(r.subcategory) == x;
      var i :| 0 <= i < |rows| && rows[i] == r;
      assert TypeColumn(rows)[i] == x;
    }
  }

  lemma ManufacturersExact(rows: seq<CatalogRow>, x: string)
    ensures x in Manufacturers(rows) <==> exists r :: r in rows && OrEmpty(r.manufacturer) == x
  {
    DistinctMembers(ManufacturerColumn(rows), x);
    if x in ManufacturerColumn(rows) {
      var i :| 0 <= i < |rows| && ManufacturerColumn(rows)[i] == x;
      assert rows[i] in rows;
    }
    if exists r :: r in rows && OrEmpty(r.manufacturer) == x {
      var r :| r in rows && OrEmpty(r.manufacturer) == x;
      var i :| 0 <= i < |rows| && rows[i] == r;
      assert ManufacturerColumn(rows)[i] == x;
    }
  }

  lemma ModelsExact(rows: seq<CatalogRow>, x: string)
    ensures x in Models(rows) <==> exists r :: r in rows && ModelName(r) == x
  {
    DistinctMembers(ModelColumn(rows), x);
    if x in ModelColumn(rows) {
      var i :| 0 <= i < |rows| && ModelColumn(rows)[i] == x;
      assert rows[i] in rows;
    }
    if exists r :: r in rows && ModelName(r) == x {
      var r :| r in rows && ModelName(r) == x;
      var i :| 0 <= i < |rows| && rows[i] == r;
      assert ModelColumn(rows)[i] == x;
    }
  }

  /** After a type is chosen, a manufacturer is offered exactly when some row of that type
      carries it. */
  lemma ManufacturersOfTypeExact(rows: seq<CatalogRow>, t: string, x: string)
    ensures x in ManufacturersOfType(rows, t) <==>
      exists r :: r in rows && r.subcategory == Some(t) && OrEmpty(r.manufacturer) == x
  {
    var p := (r: CatalogRow) => r.subcategory == Some(t);
    ManufacturersExact(Filter(rows, p), x);
    forall r ensures r in Filter(rows, p) <==> r in rows && p(r) {
      FilterMembers(rows, p, r);
    }
  }

  /** After a manufacturer is chosen, a model is offered exactly when some row of that type and
      manufacturer carries it, trimmed. */
  lemma ModelsOfExact(rows: seq<CatalogRow>, t: string, m: string, x: string)
    ensures x in ModelsOf(rows, t, m) <==>
      exists r :: r in rows && r.subcategory == Some(t) && r.manufacturer == Some(m) && ModelName(r) == x
  {
    var p := (r: CatalogRow) => r.subcategory == Some(t) && r.manufacturer == Some(m);
    ModelsExact(Filter(rows, p), x);
    forall r ensures r in Filter(rows, p) <==> r in rows && p(r) {
      FilterMembers(rows, p, r);
    }
  }

  /** The emission-factor rows with a truthy `Country`: rows without one are dropped. */
  function Countries(rows: seq<EfRow>): seq<EfRow> {
    Filter(rows, (r: EfRow) => r.country.Some? && r.country.value != "")
  }

  /** The `EF` cell as the JavaScript value read from the row. */
  function EfCell(r: EfRow): JsValue {
    match r.ef
    case Some(e) => Str(e)
    case None => Undefined
  }

  /** `efData.find(item => item.Country === country)`: the EF of the first row whose country
      equals the selection, or `null` when there is none. */
  function FindEF(efData: seq<EfRow>, country: string): JsValue {
    match FindFirst(efData, (r: EfRow) => r.country == Some(country))
    case Some(i) => EfCell(efData[i])
    case None => Null
  }

  /** The lookup reads the first row with that country and ignores later ones; with no such
      row it yields `null`. */
  lemma FindEFFirst(efData: seq<EfRow>, country: string, i: nat)
    requires i < |efData| && efData[i].country == Some(country)
    requires forall j :: 0 <= j < i ==> efData[j].country != Some(country)
    ensures FindEF(efData, country) == EfCell(efData[i])
  {
    var p := (r: EfRow) => r.country == Some(country);
    var k := FindFirst(efData, p);
    assert p(efData[i]);
    assert k.Some?;
    assert !(k.value < i) && !(i < k.value);
  }

  lemma FindEFNone(efData: seq<EfRow>, country: string)
    requires forall j :: 0 <= j < |efData| ==> efData[j].country != Some(country)
    ensures FindEF(efData, country) == Null
  {
  }

  /** The filtered table holds exactly the rows with a non-empty country, in their order. */
  lemma CountriesExact(rows: seq<EfRow>, r: EfRow)
    ensures r in Countries(rows) <==> r in rows && r.country.Some? && r.country.value != ""
  {
    FilterMembers(rows, (r: EfRow) => r.country.Some? && r.country.value != "", r);
  }
}
