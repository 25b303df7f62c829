/** The branch's add/edit page for stores, and the list row it is opened
    with: name, area, the branches served and a status switch, sent as a
    JSON body. */
module StockList {
  import opened Js
  import opened Forms
  import Fields

  datatype Form = Form(values: Object, errors: Object)

  /** The list page's row for a store: the status as text, the raw status
      beside it. */
  function ListRow(u: Object): (r: Value)
    ensures r.Obj?
    ensures Prop(r, "status") == StatusText(Get(u, "status"))
    ensures Prop(r, "rawStatus") == Get(u, "status")
    ensures Prop(r, "branches") == Or(Get(u, "branches"), Arr([]))
    ensures Prop(r, "name") == Or(Get(u, "name"), Str("—"))
  {
    Obj(map[
      "id" := Get(u, "id"),
      "name" := Or(Get(u, "name"), Str("—")),
      "status" := StatusText(Get(u, "status")),
      "rawStatus" := Get(u, "status"),
      "location" := Get(u, "location"),
      "branches" := Or(Get(u, "branches"), Arr([]))])
  }

  /** The add-mode values. */
  function AddDefaults(): (r: Form)
    ensures Get(r.values, "name") == Str("") && Get(r.values, "location") == Str("")
    ensures Get(r.values, "status") == Str("Active") && Get(r.values, "branches") == Arr([])
    ensures r.errors == map[]
  {
    Form(map["name" := Str(""), "location" := Str(""), "status" := Str("Active"), "branches" := Arr([])], map[])
  }

  /** The values read from a row, the status taken from the row's field
      `statusKey`; None when reading its branches throws. */
  function RowValues(isEdit: bool, item: Value, statusKey: string): (r: Option<Form>)
    ensures !(isEdit && Truthy(item)) ==> r == Some(AddDefaults())
    ensures isEdit && Truthy(item) ==> (r.None? <==> IdsOf(Prop(item, "branches")).None?)
    ensures isEdit && Truthy(item) && r.Some? ==>
      && Get(r.value.values, "name") == Or(Prop(item, "name"), Str(""))
      && Get(r.value.values, "location") == Or(Prop(item, "location"), Str(""))
      && (Get(r.value.values, "status") == Str("Active") <==> Truthy(Prop(item, statusKey)))
      && Get(r.value.values, "branches") == IdsOf(Prop(item, "branches")).value
      && r.value.errors == map[]
  {
    if isEdit && Truthy(item) then
      match IdsOf(Prop(item, "branches"))
      case None => None
      case Some(ids) =>
        Some(Form(map["name" := Or(Prop(item, "name"), Str("")),
                      "location" := Or(Prop(item, "location"), Str("")),
                      "status" := StatusText(Prop(item, statusKey)),
                      "branches" := ids], map[]))
    else Some(AddDefaults())
  }

  /** The opening effect: the row's status comes from `rawStatus`. */
  function Init(isEdit: bool, item: Value): (r: Option<Form>)
    ensures !(isEdit && Truthy(item)) ==> r == Some(AddDefaults())
    ensures isEdit && Truthy(item) && r.Some? ==>
      (Get(r.value.values, "status") == Str("Active") <==> Truthy(Prop(item, "rawStatus")))
  {
    RowValues(isEdit, item, "rawStatus")
  }

  /** The Reset button as written: the row's status comes from `status`,
      which on a list row is already the text "Active" or "Inactive". */
  function ResetAsWritten(isEdit: bool, item: Value): (r: Option<Form>)
    ensures !(isEdit && Truthy(item)) ==> r == Some(AddDefaults())
    ensures isEdit && Truthy(item) && r.Some? ==>
      (Get(r.value.values, "status") == Str("Active") <==> Truthy(Prop(item, "status")))
  {
    RowValues(isEdit, item, "status")
  }

  /** Whatever its stored status, a listed store resets to "Active" under
      the reset as written, so resetting an inactive store and saving
      activates it. */
  lemma ResetAsWrittenAlwaysActive(u: Object)
    requires IdsOf(Or(Get(u, "branches"), Arr([]))).Some?
    ensures ResetAsWritten(true, ListRow(u)).Some?
    ensures Get(ResetAsWritten(true, ListRow(u)).value.values, "status") == Str("Active")
    ensures !Truthy(Get(u, "status")) ==>
      Get(Init(true, ListRow(u)).value.values, "status") == Str("Inactive")
      && Get(Submit(ResetAsWritten(true, ListRow(u)).value.values), "status") == Num(1)
  {
    var row := ListRow(u);
    assert Truthy(Prop(row, "status"));
  }

  /** The Reset button as intended: the row's status comes from
      `rawStatus`, as on opening. */
  function Reset(isEdit: bool, item: Value): (r: Option<Form>)
    ensures !(isEdit && Truthy(item)) ==> r == Some(AddDefaults())
    ensures isEdit && Truthy(item) && r.Some? ==>
      (Get(r.value.values, "status") == Str("Active") <==> Truthy(Prop(item, "rawStatus")))
  {
    Init(isEdit, item)
  }

  /** Resetting a listed store and saving it sends the stored status, and
      the reset form is the opening form. */
  lemma ResetRestoresStoredStatus(u: Object)
    requires IdsOf(Or(Get(u, "branches"), Arr([]))).Some?
    ensures Reset(true, ListRow(u)) == Init(true, ListRow(u))
    ensures Reset(true, ListRow(u)).Some?
    ensures Get(Submit(Reset(true, ListRow(u)).value.values), "status") == Flag(Truthy(Get(u, "status")))
  {
  }

  /** A change to one field: only that key changes and its error clears. */
  function HandleChange(f: Form, name: string, v: Value): (r: Form)
    ensures Get(r.values, name) == v
    ensures forall k :: k != name ==> Get(r.values, k) == Get(f.values, k)
    ensures !Truthy(Get(r.errors, name))
    ensures forall k :: k != name ==> Get(r.errors, k) == Get(f.errors, k)
  {
    Form(Set(f.values, name, v), ClearError(f.errors, name))
  }

  /** The JSON body of a submit. */
  function Submit(values: Object): (r: Object)
    ensures r.Keys == {"name", "location", "branches", "status"}
    ensures Get(r, "name") == Or(Get(values, "name"), Str(""))
    ensures Get(r, "location") == Or(Get(values, "location"), Str(""))
    ensures Get(r, "branches") == Or(Get(values, "branches"), Arr([]))
    ensures Get(r, "status") == Num(1) <==> Get(values, "status") == Str("Active")
    ensures Get(r, "status") == Num(1) || Get(r, "status") == Num(0)
  {
    map["name" := Or(Get(values, "name"), Str("")),
        "location" := Or(Get(values, "location"), Str("")),
        "branches" := Or(Get(values, "branches"), Arr([])),
        "status" := ActiveFlag(Get(values, "status"))]
  }

  /** The fields shown: none is marked required. */
  function FieldList(): (r: seq<Fields.Field>)
    ensures |r| == 4
    ensures r[0].name == "name" && r[1].name == "location"
    ensures r[2].name == "branches" && r[2].kind == Fields.MultiSelect
    ensures r[3] == Fields.StringStatusSwitch
    ensures forall i :: 0 <= i < |r| ==> !r[i].required
  {
    [Fields.Plain("name", Fields.TextInput, "Stock Name", false),
     Fields.Plain("location", Fields.TextInput, "Area", false),
     Fields.Plain("branches", Fields.MultiSelect, "Branches", false),
     Fields.StringStatusSwitch]
  }

  /** The switch as written: a new store's "Active" shows as off, and
      turning the switch on writes the boolean true, which the body sends
      as status 0. */
  lemma StatusSwitchAsWritten(isEdit: bool, item: Value)
    requires !(isEdit && Truthy(item))
    ensures Init(isEdit, item).Some?
    ensures !Fields.SwitchChecked(Get(Init(isEdit, item).value.values, "status"))
    ensures Get(Submit(HandleChange(Init(isEdit, item).value, "status", Bool(true)).values), "status") == Num(0)
  {
  }

  /** A toggle of the status switch, written back by the switch as the
      page declares it (see `Fields.FixedSwitchValue`). */
  function ToggleStatus(f: Form, checked: bool): (r: Form)
    ensures Get(r.values, "status") == Str(if checked then "Active" else "Inactive")
    ensures forall k :: k != "status" ==> Get(r.values, k) == Get(f.values, k)
  {
    HandleChange(f, "status", Fields.FixedSwitchValue(Fields.StringStatusSwitch, checked))
  }

  /** After a toggle the body carries 1 exactly when the switch was
      turned on. */
  lemma ToggleThenSubmit(f: Form, checked: bool)
    ensures Get(Submit(ToggleStatus(f, checked).values), "status") == Flag(checked)
  {
  }
}
