/** The admin's add/edit page for stores: name, area, the branches served
    and a status switch, sent as a JSON body whose status is 1 for any
    spelling of "active". */
module AdminStockMan {
  import opened Js
  import opened Forms
  import Fields

  /** The add-mode values. */
  function AddDefaults(): (r: Object)
    ensures Get(r, "name") == Str("") && Get(r, "location") == Str("")
    ensures Get(r, "status") == Str("Active") && Get(r, "branches") == Arr([])
    ensures "id" !in r
  {
    map["name" := Str(""), "location" := Str(""), "status" := Str("Active"), "branches" := Arr([])]
  }

  /** The values taken from a row, or None when reading its branches
      throws. */
  function EditValues(item: Value): (r: Option<Object>)
    ensures r.None? <==> IdsOf(Prop(item, "branches")).None?
    ensures r.Some? ==>
      && Get(r.value, "id") == Or(Prop(item, "id"), Str(""))
      && Get(r.value, "name") == Or(Prop(item, "name"), Str(""))
      && Get(r.value, "location") == Or(Prop(item, "location"), Str(""))
      && Get(r.value, "status") == Or(Prop(item, "status"), Str("Active"))
      && Get(r.value, "branches") == IdsOf(Prop(item, "branches")).value
  {
    match IdsOf(Prop(item, "branches"))
    case None => None
    case Some(ids) =>
      Some(map["id" := Or(Prop(item, "id"), Str("")),
               "name" := Or(Prop(item, "name"), Str("")),
               "location" := Or(Prop(item, "location"), Str("")),
               "status" := Or(Prop(item, "status"), Str("Active")),
               "branches" := ids])
  }

  /** The values after the opening effect: the row in edit mode, the add
      defaults in add mode, and the initial empty object while an edit
      has no row. */
  function Init(isEdit: bool, item: Value): (r: Option<Object>)
    ensures isEdit && Truthy(item) ==> r == EditValues(item)
    ensures !isEdit ==> r == Some(AddDefaults())
    ensures isEdit && !Truthy(item) ==> r == Some(map[])
  {
    if isEdit && Truthy(item) then EditValues(item)
    else if !isEdit then Some(AddDefaults())
    else Some(map[])
  }

  /** The Reset button: the row in edit mode, the add defaults otherwise. */
  function Reset(isEdit: bool, item: Value): (r: Option<Object>)
    ensures isEdit && Truthy(item) ==> r == EditValues(item)
    ensures !(isEdit && Truthy(item)) ==> r == Some(AddDefaults())
  {
    if isEdit && Truthy(item) then EditValues(item) else Some(AddDefaults())
  }

  /** Reset returns to the opening values except for an edit page opened
      without a row, where it fills in the add defaults. */
  lemma ResetMatchesInit(isEdit: bool, item: Value)
    ensures Reset(isEdit, item) == Init(isEdit, item) <==> !isEdit || Truthy(item)
  {
    if isEdit && !Truthy(item) {
      assert "name" in Reset(isEdit, item).value;
    }
  }

  /** `status?.toLowerCase() === "active" ? 1 : 0`: None when the status
      is neither missing nor text, since only text has `toLowerCase`. */
  function StatusFlag(status: Value): (r: Option<Value>)
    ensures r.None? <==> !(status.Undefined? || status.Null? || status.Str?)
    ensures r.Some? ==> (r.value == Num(1) <==> status.Str? && Lower(status.s) == "active")
    ensures r.Some? ==> r.value == Num(1) || r.value == Num(0)
  {
    if status.Undefined? || status.Null? then Some(Num(0))
    else if status.Str? then Some(Flag(Lower(status.s) == "active"))
    else None
  }

  /** The JSON body of a submit, or None when building it throws. */
  function Submit(values: Object): (r: Option<Object>)
    ensures r.None? <==> StatusFlag(Get(values, "status")).None?
    ensures r.Some? ==>
      && r.value.Keys == {"name", "location", "branches", "status"}
      && Get(r.value, "name") == Or(Get(values, "name"), Str(""))
      && Get(r.value, "location") == Or(Get(values, "location"), Str(""))
      && Get(r.value, "branches") == Or(Get(values, "branches"), Arr([]))
      && Get(r.value, "status") == StatusFlag(Get(values, "status")).value
  {
    match StatusFlag(Get(values, "status"))
    case None => None
    case Some(flag) =>
      Some(map["name" := Or(Get(values, "name"), Str("")),
               "location" := Or(Get(values, "location"), Str("")),
               "branches" := Or(Get(values, "branches"), Arr([])),
               "status" := flag])
  }

  lemma LowerActive()
    ensures Lower("Active") == "active" && Lower("active") == "active"
    ensures Lower("Inactive") != "active"
  {
    assert Lower("Active")[0] == 'a';
  }

  /** The fields shown. */
  function FieldList(): (r: seq<Fields.Field>)
    ensures |r| == 4
    ensures r[0].name == "name" && r[0].kind == Fields.TextInput
    ensures r[1].name == "location" && r[1].kind == Fields.TextInput
    ensures r[2].name == "branches" && r[2].kind == Fields.MultiSelect
    ensures r[3] == Fields.StringStatusSwitch
    ensures forall i :: 0 <= i < |r| ==> !r[i].required
  {
    [Fields.Plain("name", Fields.TextInput, "Stock Name", false),
     Fields.Plain("location", Fields.TextInput, "Area", false),
     Fields.Plain("branches", Fields.MultiSelect, "Branches", false),
     Fields.StringStatusSwitch]
  }

  /** After a toggle the body is built and carries 1 exactly when the
      switch was turned on. */
  lemma ToggleThenSubmit(values: Object, checked: bool)
    ensures Submit(Fields.ToggleStringStatus(values, checked)).Some?
    ensures Get(Submit(Fields.ToggleStringStatus(values, checked)).value, "status") == Flag(checked)
  {
    LowerActive();
  }

  /** The switch as written: turning it on writes the boolean true, and
      the submit then throws on `toLowerCase`. */
  lemma StatusSwitchAsWritten(values: Object)
    ensures Fields.Produced(Fields.StringStatusSwitch.kind, Fields.Toggled(true)) == Some(Bool(true))
    ensures Submit(Set(values, "status", Bool(true))) == None
  {
  }

  /** Opening a listed store (status "Active" or "Inactive", branches a
      list of objects) and saving it unchanged sends its branch ids and
      its status as 1/0. */
  lemma EditRoundTrip(item: Value, active: bool)
    requires Truthy(item)
    requires Prop(item, "status") == Str(if active then "Active" else "Inactive")
    requires Prop(item, "branches").Arr?
    requires forall i :: 0 <= i < |Prop(item, "branches").items| ==> Prop(item, "branches").items[i].Obj?
    ensures Init(true, item).Some?
    ensures var r := Submit(Init(true, item).value);
      && r.Some?
      && Get(r.value, "status") == Flag(active)
      && Get(r.value, "branches") == IdsOf(Prop(item, "branches")).value
  {
    LowerActive();
    var v := Init(true, item).value;
    assert Truthy(Get(v, "branches"));
  }

  // -------------------------------------------------------------------
  // How the page learns its mode

  /** The route parameters `useParams` returns. */
  type Params = map<string, string>

  /** The parameters of the two routes that mount the page:
      `stock_man/add` and `stock_man/edit/:stockManId`. */
  function AddRoute(): (r: Params)
    ensures r == map[]
  {
    map[]
  }

  function EditRoute(id: string): (r: Params)
    ensures r.Keys == {"stockManId"} && r["stockManId"] == id
  {
    map["stockManId" := id]
  }

  /** The mode and the endpoint the page takes from the route parameter
      named `idParam`: edit iff the parameter is non-empty text, and then
      the update endpoint carries it; otherwise the add endpoint. */
  function Mode(params: Params, idParam: string): (r: (bool, string))
    ensures r.0 <==> idParam in params && params[idParam] != ""
    ensures r.0 ==> r.1 == "/admin/purchase_stores/update/" + params[idParam]
    ensures !r.0 ==> r.1 == "/admin/purchase_stores/add"
  {
    var id := if idParam in params then Str(params[idParam]) else Undefined;
    if Truthy(id) then (true, "/admin/purchase_stores/update/" + ToJsString(id))
    else (false, "/admin/purchase_stores/add")
  }

  /** The parameter the page reads as written, and the one its edit route
      supplies. */
  const ReadParam: string := "stockId"
  const RouteParam: string := "stockManId"

  /** As written, the edit route never puts the page in edit mode: it
      supplies `stockManId` while the page reads `stockId`, so "Edit" on a
      listed store opens the blank add form and saving it adds a new
      store. */
  lemma RoutedEditOpensAddForm(id: string, item: Value)
    ensures !Mode(EditRoute(id), ReadParam).0
    ensures Mode(EditRoute(id), ReadParam).1 == "/admin/purchase_stores/add"
    ensures Init(Mode(EditRoute(id), ReadParam).0, item) == Some(AddDefaults())
  {
    assert ReadParam !in EditRoute(id);
  }

  /** Reading the parameter the route supplies, the edit route opens the
      listed store and saves to its update endpoint, and the add route
      still opens the add form. A route segment is never empty. */
  lemma RoutedEditFixed(id: string, item: Value)
    requires id != ""
    ensures Mode(EditRoute(id), RouteParam).0
    ensures Mode(EditRoute(id), RouteParam).1 == "/admin/purchase_stores/update/" + id
    ensures Init(Mode(EditRoute(id), RouteParam).0, item) == Init(true, item)
    ensures !Mode(AddRoute(), RouteParam).0
    ensures Init(Mode(AddRoute(), RouteParam).0, item) == Some(AddDefaults())
  {
  }
}
