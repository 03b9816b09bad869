/** The add-device page: three cascading selections over the device catalog. Loading the
    catalog fills the three option lists; choosing a type narrows the manufacturers and clears
    the manufacturer and model; choosing a manufacturer narrows the models and clears the
    model. The narrowing happens in two effects that run after the render in which one of
    their dependencies changed, and both read the state of that render. */
module AddDevice {
  import opened Wrappers
  import opened Js
  import opened Catalog
  import opened Records

  /** The page's state variables. */
  datatype Page = Page(
    data: seq<CatalogRow>,
    deviceTypes: seq<string>,
    manufacturers: seq<string>,
    deviceModels: seq<string>,
    selectedType: string,
    selectedManufacturer: string,
    selectedModel: string)

  /** The first effect (dependencies `selectedType`, `data`) does something in this render. */
  predicate TypeEffectRuns(prev: Page, next: Page, reloaded: bool) {
    next.selectedType != "" && (reloaded || next.selectedType != prev.selectedType)
  }

  /** The second effect (dependencies `selectedManufacturer`, `selectedType`, `data`) does
      something in this render. */
  predicate ManufacturerEffectRuns(prev: Page, next: Page, reloaded: bool) {
    next.selectedManufacturer != ""
    && (reloaded || next.selectedManufacturer != prev.selectedManufacturer || next.selectedType != prev.selectedType)
  }

  /** The state after the effects of a render that went from `prev` to `next`; `reloaded` says
      that `data` was set anew. The resets the first effect makes lead to one more render, in
      which the second effect sees an empty manufacturer and does nothing, so one pass
      settles the page. */
  function Settle(prev: Page, next: Page, reloaded: bool): (s: Page)
    ensures s.data == next.data && s.deviceTypes == next.deviceTypes && s.selectedType == next.selectedType
    ensures TypeEffectRuns(prev, next, reloaded) ==>
      s.manufacturers == ManufacturersOfType(next.data, next.selectedType)
      && s.selectedManufacturer == "" && s.selectedModel == ""
    ensures !TypeEffectRuns(prev, next, reloaded) ==>
      s.manufacturers == next.manufacturers && s.selectedManufacturer == next.selectedManufacturer
    ensures ManufacturerEffectRuns(prev, next, reloaded) ==>
      s.deviceModels == ModelsOf(next.data, next.selectedType, next.selectedManufacturer) && s.selectedModel == ""
    ensures !ManufacturerEffectRuns(prev, next, reloaded) ==> s.deviceModels == next.deviceModels
    ensures !TypeEffectRuns(prev, next, reloaded) && !ManufacturerEffectRuns(prev, next, reloaded) ==>
      s.selectedModel == next.selectedModel
  {
    var a := if TypeEffectRuns(prev, next, reloaded)
      then next.(manufacturers := ManufacturersOfType(next.data, next.selectedType),
                 selectedManufacturer := "", selectedModel := "")
      else next;
    if ManufacturerEffectRuns(prev, next, reloaded)
    then a.(deviceModels := ModelsOf(next.data, next.selectedType, next.selectedManufacturer), selectedModel := "")
    else a
  }

  /** The load callback: the parsed rows and the three distinct option lists of the whole
      catalog, set together. */
  function Loaded(p: Page, rows: seq<CatalogRow>): Page {
    p.(data := rows, deviceTypes := DeviceTypes(rows), manufacturers := Manufacturers(rows), deviceModels := Models(rows))
  }

  /** Choosing a new, non-empty type offers exactly the manufacturers of the rows of that type
      and clears the manufacturer and the model. */
  lemma ChooseTypeNarrows(p: Page, t: string, x: string)
    requires t != "" && t != p.selectedType
    ensures var s := Settle(p, p.(selectedType := t), false);
      s.selectedType == t && s.selectedManufacturer == "" && s.selectedModel == ""
      && (x in s.manufacturers <==>
          exists r :: r in p.data && r.subcategory == Some(t) && OrEmpty(r.manufacturer) == x)
  {
    ManufacturersOfTypeExact(p.data, t, x);
  }

  /** Choosing a new, non-empty manufacturer offers exactly the trimmed model names of the rows
      of the chosen type and that manufacturer, and clears the model; the type is kept. */
  lemma ChooseManufacturerNarrows(p: Page, m: string, x: string)
    requires m != "" && m != p.selectedManufacturer
    ensures var s := Settle(p, p.(selectedManufacturer := m), false);
      s.selectedType == p.selectedType && s.selectedManufacturer == m && s.selectedModel == ""
      && s.manufacturers == p.manufacturers
      && (x in s.deviceModels <==>
          exists r :: r in p.data && r.subcategory == Some(p.selectedType) && r.manufacturer == Some(m) && ModelName(r) == x)
  {
    ModelsOfExact(p.data, p.selectedType, m, x);
  }

  /** Re-choosing the current type or manufacturer changes nothing. */
  lemma ChooseSameIsNoOp(p: Page)
    ensures Settle(p, p.(selectedType := p.selectedType), false) == p
    ensures Settle(p, p.(selectedManufacturer := p.selectedManufacturer), false) == p
  {
    assert p.(selectedType := p.selectedType) == p;
    assert p.(selectedManufacturer := p.selectedManufacturer) == p;
  }

  /** Changing the type while a manufacturer is selected also runs the second effect, with the
      manufacturer of that render: the model list becomes the models of the new type by the
      old manufacturer, while the manufacturer itself is cleared. */
  lemma ChooseTypeKeepsStaleModels(p: Page, t: string)
    requires t != "" && t != p.selectedType && p.selectedManufacturer != ""
    ensures var s := Settle(p, p.(selectedType := t), false);
      s.selectedManufacturer == "" && s.deviceModels == ModelsOf(p.data, t, p.selectedManufacturer)
  {
  }

  /** On a fresh page the load offers every type, manufacturer and model of the catalog, each
      once, and selects nothing. */
  lemma LoadOffersWholeCatalog(rows: seq<CatalogRow>, x: string)
    ensures var s := Settle(EmptyPage(), Loaded(EmptyPage(), rows), true);
      s == Loaded(EmptyPage(), rows)
      && (x in s.deviceTypes <==> exists r :: r in rows && OrEmpty(r.subcategory) == x)
      && (x in s.manufacturers <==> exists r :: r in rows && OrEmpty(r.manufacturer) == x)
      && (x in s.deviceModels <==> exists r :: r in rows && ModelName(r) == x)
  {
    DeviceTypesExact(rows, x);
    ManufacturersExact(rows, x);
    ModelsExact(rows, x);
  }

  function EmptyPage(): Page {
    Page([], [], [], [], "", "", "")
  }

  /** The request `handleAddDevice` posts: only when all three selections are non-empty. */
  function AddRequest(p: Page, username: JsValue, id: JsValue): (q: Option<DeviceRequest>)
    ensures q.Some? <==> p.selectedType != "" && p.selectedManufacturer != "" && p.selectedModel != ""
    ensures q.Some? ==>
      (q.value.selectedType == Str(p.selectedType)
       && q.value.selectedManufacturer == Str(p.selectedManufacturer)
       && q.value.selectedModel == Str(p.selectedModel)
       && q.value.username == username && q.value.id == id)
  {
    if p.selectedType != "" && p.selectedManufacturer != "" && p.selectedModel != ""
    then Some(DeviceRequest(Str(p.selectedType), Str(p.selectedManufacturer), Str(p.selectedModel), username, id))
    else None
  }

  /** A request the page posts has three truthy selections, so the server's check never
      answers "all fields are required" for want of one of them. */
  lemma AddRequestPassesFieldCheck(p: Page, username: JsValue, id: JsValue, csv: Option<seq<CatalogRow>>)
    requires AddRequest(p, username, id).Some? && Truthy(username) && Truthy(id)
    ensures CheckDevice(AddRequest(p, username, id).value, csv) != FieldsRequired
  {
  }

  class AddDevicePage {
    var data: seq<CatalogRow>
    var deviceTypes: seq<string>
    var manufacturers: seq<string>
    var deviceModels: seq<string>
    var selectedType: string
    var selectedManufacturer: string
    var selectedModel: string

    function State(): Page
      reads this
    {
      Page(data, deviceTypes, manufacturers, deviceModels, selectedType, selectedManufacturer, selectedModel)
    }

    /** The initial state: empty lists, nothing selected. */
    constructor()
      ensures State() == EmptyPage()
    {
      data, deviceTypes, manufacturers, deviceModels := [], [], [], [];
      selectedType, selectedManufacturer, selectedModel := "", "", "";
    }

    /** The two filter effects after a render whose previous state was `prev`. */
    method RunEffects(prev: Page, reloaded: bool)
      modifies this
      ensures State() == Settle(prev, old(State()), reloaded)
    {
      var next := State();
      if TypeEffectRuns(prev, next, reloaded) {
        manufacturers := ManufacturersOfType(data, selectedType);
        selectedManufacturer := "";
        selectedModel := "";
      }
      if ManufacturerEffectRuns(prev, next, reloaded) {
        deviceModels := ModelsOf(data, next.selectedType, next.selectedManufacturer);
        selectedModel := "";
      }
    }

    /** The catalog load callback. */
    method Load(rows: seq<CatalogRow>)
      modifies this
      ensures State() == Settle(old(State()), Loaded(old(State()), rows), true)
    {
      var prev := State();
      data := rows;
      deviceTypes := DeviceTypes(rows);
      manufacturers := Manufacturers(rows);
      deviceModels := Models(rows);
      RunEffects(prev, true);
    }

    /** The type select's change handler. */
    method SelectType(t: string)
      modifies this
      ensures State() == Settle(old(State()), old(State()).(selectedType := t), false)
    {
      var prev := State();
      selectedType := t;
      RunEffects(prev, false);
    }

    /** The manufacturer select's change handler. */
    method SelectManufacturer(m: string)
      modifies this
      ensures State() == Settle(old(State()), old(State()).(selectedManufacturer := m), false)
    {
      var prev := State();
      selectedManufacturer := m;
      RunEffects(prev, false);
    }

    /** The model select's change handler; no effect depends on the model. */
    method SelectModel(x: string)
      modifies this
      ensures State() == old(State()).(selectedModel := x)
    {
      selectedModel := x;
    }

    /** `handleAddDevice` up to the post: the request, or `None` for the "select all fields"
      alert. */
    method HandleAddDevice(username: JsValue, id: JsValue) returns (q: Option<DeviceRequest>)
      ensures q.Some? <==> selectedType != "" && selectedManufacturer != "" && selectedModel != ""
      ensures q == AddRequest(State(), username, id)
    {
      if selectedType != "" && selectedManufacturer != "" && selectedModel != "" {
        q := Some(DeviceRequest(Str(selectedType), Str(selectedManufacturer), Str(selectedModel), username, id));
      } else {
        q := None;
      }
    }
  }
}
