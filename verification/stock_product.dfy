/** The branch's add/edit page for purchase products, and the list row it
    is opened with. */
module StockProduct {
  import opened Js
  import opened Forms

  datatype Form = Form(values: Object, errors: Object)

  /** The list page's row for a product. */
  function ProductRow(p: Object): (r: Value)
    ensures r.Obj? && Prop(r, "category_id") == Get(p, "category_id")
  {
    Obj(map[
      "id" := Get(p, "id"),
      "name" := Or(Get(p, "name"), Str("—")),
      "description" := Or(Get(p, "description"), Str("—")),
      "category" := Or(Get(p, "category"), Str("—")),
      "category_id" := Get(p, "category_id"),
      "status" := StatusText(Get(p, "status")),
      "rawStatus" := Get(p, "status")])
  }

  function AddDefaults(): (r: Form)
    ensures Get(r.values, "name") == Str("") && Get(r.values, "description") == Str("")
    ensures Get(r.values, "status") == Str("Active") && Get(r.values, "category_id") == Str("")
    ensures r.errors == map[]
  {
    Form(map["name" := Str(""), "description" := Str(""), "status" := Str("Active"), "category_id" := Str("")], map[])
  }

  /** The edit values, with the category id as given. */
  function EditValues(item: Value, categoryId: Value): (r: Form)
    ensures Get(r.values, "name") == Or(Prop(item, "name"), Str(""))
    ensures Get(r.values, "description") == Or(Prop(item, "description"), Str(""))
    ensures Get(r.values, "status") == Str("Active") <==> Truthy(Prop(item, "rawStatus"))
    ensures Get(r.values, "category_id") == categoryId
    ensures r.errors == map[]
  {
    Form(map[
        "name" := Or(Prop(item, "name"), Str("")),
        "description" := Or(Prop(item, "description"), Str("")),
        "status" := StatusText(Prop(item, "rawStatus")),
        "category_id" := categoryId],
      map[])
  }

  /** The form when the page opens. The edit branch calls `toString` on
      the row's category id, which throws (None) when the id is null or
      undefined. */
  function Init(isEdit: bool, item: Value): (r: Option<Form>)
    ensures r.None? <==> isEdit && Truthy(item) && (Prop(item, "category_id").Undefined? || Prop(item, "category_id").Null?)
    ensures !(isEdit && Truthy(item)) ==> r == Some(AddDefaults())
    ensures r.Some? && isEdit && Truthy(item) ==>
      Get(r.value.values, "category_id") == Or(Str(ToJsString(Prop(item, "category_id"))), Str(""))
  {
    if isEdit && Truthy(item) then
      var id := Prop(item, "category_id");
      if id.Undefined? || id.Null? then None
      else Some(EditValues(item, Or(Str(ToJsString(id)), Str(""))))
    else Some(AddDefaults())
  }

  /** The Reset button: the row's category id is kept as it is. */
  function Reset(isEdit: bool, item: Value): (r: Form)
    ensures !(isEdit && Truthy(item)) ==> r == AddDefaults()
    ensures isEdit && Truthy(item) ==> Get(r.values, "category_id") == Or(Prop(item, "category_id"), Str(""))
  {
    if isEdit && Truthy(item) then EditValues(item, Or(Prop(item, "category_id"), Str("")))
    else AddDefaults()
  }

  /** Where the opening form exists, Reset returns to it exactly when the
      form is in add mode or the row's category id is already a string. */
  lemma ResetMatchesInit(isEdit: bool, item: Value)
    requires Init(isEdit, item).Some?
    ensures Reset(isEdit, item) == Init(isEdit, item).value <==>
      !(isEdit && Truthy(item)) || Prop(item, "category_id").Str?
  {
    if isEdit && Truthy(item) {
      var id := Prop(item, "category_id");
      var a := Get(Reset(isEdit, item).values, "category_id");
      var b := Get(Init(isEdit, item).value.values, "category_id");
      if id.Num? {
        NumTextNonEmpty(id.n);
        assert b.Str? && b.s != "";
        assert a != b;
      } else if id.Bool? {
        assert b == Str(if id.b then "true" else "false");
      } else if id.Arr? {
        assert a == id;
      } else if id.Obj? || id.File? {
        assert a == id;
      }
    }
  }

  lemma NumTextNonEmpty(n: int)
    ensures NumToString(n) != ""
  {
  }

  /** A change to one field: only that key changes and its error clears. */
  function HandleChange(f: Form, name: string, v: Value): (r: Form)
    ensures Get(r.values, name) == v
    ensures forall k :: k != name ==> Get(r.values, k) == Get(f.values, k)
    ensures !Truthy(Get(r.errors, name))
    ensures forall k :: k != name ==> Get(r.errors, k) == Get(f.errors, k)
  {
    Form(Set(f.values, name, v), ClearError(f.errors, name))
  }

  function ErrorMap(nameMissing: bool, descriptionMissing: bool, categoryMissing: bool): (r: map<string, string>)
    ensures "name" in r <==> nameMissing
    ensures "description" in r <==> descriptionMissing
    ensures "category_id" in r <==> categoryMissing
    ensures forall k :: k in r ==> k == "name" || k == "description" || k == "category_id"
  {
    (if nameMissing then map["name" := "Product name is required"] else map[])
    + (if descriptionMissing then map["description" := "Description is required"] else map[])
    + (if categoryMissing then map["category_id" := "Category is required"] else map[])
  }

  /** The validation errors of a submit. */
  function Validate(f: Form): (r: map<string, string>)
    ensures "name" in r <==> Blank(Get(f.values, "name"))
    ensures "description" in r <==> Blank(Get(f.values, "description"))
    ensures "category_id" in r <==> !Truthy(Get(f.values, "category_id"))
    ensures forall k :: k in r ==> k == "name" || k == "description" || k == "category_id"
  {
    ErrorMap(Blank(Get(f.values, "name")), Blank(Get(f.values, "description")),
      !Truthy(Get(f.values, "category_id")))
  }

  /** Submit: any error blocks; otherwise the JSON body with trimmed text,
      the category id as chosen and the 1/0 status. */
  function Submit(f: Form): (r: Submission<Object>)
    ensures r.Blocked? <==> Validate(f) != map[]
    ensures r.Blocked? ==> r.errors == Validate(f)
    ensures r.Send? ==>
      && Get(f.values, "name").Str? && Get(f.values, "description").Str?
      && Get(r.payload, "name") == Str(Trim(Get(f.values, "name").s))
      && Get(r.payload, "description") == Str(Trim(Get(f.values, "description").s))
      && Get(r.payload, "name") != Str("") && Get(r.payload, "description") != Str("")
      && Get(r.payload, "category_id") == Get(f.values, "category_id")
      && Truthy(Get(r.payload, "category_id"))
      && Get(r.payload, "status") == ActiveFlag(Get(f.values, "status"))
      && r.payload.Keys == {"name", "description", "category_id", "status"}
  {
    var errs := Validate(f);
    if errs != map[] then Blocked(errs)
    else Send(map[
      "name" := Or(OptTrim(Get(f.values, "name")), Str("")),
      "description" := Or(OptTrim(Get(f.values, "description")), Str("")),
      "category_id" := Get(f.values, "category_id"),
      "status" := ActiveFlag(Get(f.values, "status"))])
  }

  /** A form with no failing check passes validation. */
  lemma NoErrorsWhenChecksPass(f: Form)
    requires !Blank(Get(f.values, "name")) && !Blank(Get(f.values, "description"))
    requires Truthy(Get(f.values, "category_id"))
    ensures Validate(f) == map[]
  {
    var r := Validate(f);
    assert forall k :: k !in r;
  }

  /** A fresh add form is refused for all three required fields. */
  lemma AddDefaultsBlocked()
    ensures Submit(AddDefaults()).Blocked?
    ensures Submit(AddDefaults()).errors.Keys == {"name", "description", "category_id"}
  {
    var f := AddDefaults();
    assert Blank(Get(f.values, "name")) && Blank(Get(f.values, "description"));
  }

  lemma ProductRowProps(p: Object)
    ensures Truthy(ProductRow(p))
    ensures Prop(ProductRow(p), "name") == Or(Get(p, "name"), Str("—"))
    ensures Prop(ProductRow(p), "description") == Or(Get(p, "description"), Str("—"))
    ensures Prop(ProductRow(p), "rawStatus") == Get(p, "status")
  {
  }

  /** Opening a listed product whose name and description are already
      trimmed and saving it unchanged sends them back with the id as text
      and the row's status. */
  lemma EditRoundTrip(p: Object, name: string, description: string, id: int)
    requires Get(p, "name") == Str(name) && Trim(name) == name && name != ""
    requires Get(p, "description") == Str(description) && Trim(description) == description && description != ""
    requires Get(p, "category_id") == Num(id)
    ensures Init(true, ProductRow(p)).Some?
    ensures var r := Submit(Init(true, ProductRow(p)).value);
      && r.Send?
      && Get(r.payload, "name") == Str(name)
      && Get(r.payload, "description") == Str(description)
      && Get(r.payload, "category_id") == Str(NumToString(id))
      && Get(r.payload, "status") == Flag(Truthy(Get(p, "status")))
  {
    ProductRowProps(p);
    NumTextNonEmpty(id);
    var f := Init(true, ProductRow(p)).value;
    assert Get(f.values, "category_id") == Str(NumToString(id));
    NoErrorsWhenChecksPass(f);
  }
}
