/** The branch's add/edit page for purchase categories, and the list rows
    it is opened with. A category is a main ("parent") category or a
    sub-category of one; the page keeps that choice beside its values. */
module StockCategory {
  import opened Js
  import opened Forms

  /** The page's state: form values, shown errors and the category type
      (`categoryType`, normally "parent" or "sub"). */
  datatype Form = Form(values: Object, errors: Object, categoryType: Value)

  const Parent: Value := Str("parent")
  const Sub: Value := Str("sub")
  const NoParent: Value := Str("—")

  /** The list page's row for a main category (no `parent_category`). */
  function ParentRow(c: Object): (r: Value)
    ensures r.Obj? && "parent_category" !in r.props
  {
    Obj(map[
      "id" := Get(c, "id"),
      "name" := Or(Get(c, "name"), NoParent),
      "status" := StatusText(Get(c, "status")),
      "rawStatus" := Get(c, "status"),
      "type" := Parent])
  }

  /** The list page's row for a sub-category; a missing parent shows "—". */
  function SubRow(c: Object): (r: Value)
    ensures r.Obj? && Prop(r, "parent_category") == Or(Get(c, "category"), NoParent)
  {
    Obj(map[
      "id" := Get(c, "id"),
      "name" := Or(Get(c, "name"), NoParent),
      "category_id" := Get(c, "category_id"),
      "parent_category" := Or(Get(c, "category"), NoParent),
      "status" := StatusText(Get(c, "status")),
      "rawStatus" := Get(c, "status"),
      "type" := Sub])
  }

  function AddDefaults(): (r: Form)
    ensures r.values == map["name" := Str(""), "status" := Str("Active"), "category_id" := Str(""), "category_type" := Parent]
    ensures r.errors == map[] && r.categoryType == Parent
  {
    Form(map["name" := Str(""), "status" := Str("Active"), "category_id" := Str(""), "category_type" := Parent],
      map[], Parent)
  }

  /** The values an edit starts from. `stringify` says whether the parent
      id is converted with `?.toString()` (first load) or kept as is
      (reset). The type is "sub" whenever the row's parent is not "—". */
  function EditValues(item: Value, stringify: bool): (r: Form)
    ensures Get(r.values, "status") == Str("Active") <==> Truthy(Prop(item, "rawStatus"))
    ensures r.categoryType == Sub <==> Prop(item, "parent_category") != NoParent
    ensures r.categoryType == Parent <==> Prop(item, "parent_category") == NoParent
    ensures r.categoryType == Parent ==> Get(r.values, "category_id") == Str("")
    ensures Get(r.values, "name") == Or(Prop(item, "name"), Str(""))
    ensures r.errors == map[] && "category_type" !in r.values
  {
    var sub := Prop(item, "parent_category") != NoParent;
    var id := Prop(item, "category_id");
    Form(map[
        "name" := Or(Prop(item, "name"), Str("")),
        "status" := StatusText(Prop(item, "rawStatus")),
        "category_id" := if !sub then Str("") else if stringify then OptToString(id) else id],
      map[],
      if sub then Sub else Parent)
  }

  /** The form when the page opens: edit mode with a row starts from the
      row, anything else from the add defaults. */
  function Init(isEdit: bool, item: Value): (r: Form)
    ensures !(isEdit && Truthy(item)) ==> r == AddDefaults()
    ensures isEdit && Truthy(item) ==> r == EditValues(item, true)
  {
    if isEdit && Truthy(item) then EditValues(item, true) else AddDefaults()
  }

  /** The Reset button. */
  function Reset(isEdit: bool, item: Value): (r: Form)
    ensures !(isEdit && Truthy(item)) ==> r == AddDefaults()
    ensures isEdit && Truthy(item) ==> r == EditValues(item, false)
  {
    if isEdit && Truthy(item) then EditValues(item, false) else AddDefaults()
  }

  /** Reset gives back the opening form except for a sub-category whose
      parent id is not already a string or undefined: the opening form
      holds the id as text, the reset form holds it raw. */
  lemma ResetMatchesInit(isEdit: bool, item: Value)
    ensures Reset(isEdit, item) == Init(isEdit, item) <==>
      !(isEdit && Truthy(item) && Prop(item, "parent_category") != NoParent)
      || Prop(item, "category_id").Undefined? || Prop(item, "category_id").Str?
  {
    if isEdit && Truthy(item) && Prop(item, "parent_category") != NoParent {
      var id := Prop(item, "category_id");
      if !(id.Undefined? || id.Str?) {
        assert Get(Reset(isEdit, item).values, "category_id") == id;
        assert Get(Init(isEdit, item).values, "category_id") == OptToString(id);
      }
    }
  }

  /** The names of the fields shown, in order. */
  function FieldNames(isEdit: bool, categoryType: Value): (r: seq<string>)
    ensures isEdit && categoryType != Sub ==> r == ["name", "status"]
    ensures isEdit && categoryType == Sub ==> r == ["name", "category_id", "status"]
    ensures !isEdit && categoryType != Sub ==> r == ["category_type", "name", "status"]
    ensures !isEdit && categoryType == Sub ==> r == ["category_type", "category_id", "name", "status"]
  {
    var base := ["name", "status"];
    var withType := if isEdit then base else ["category_type"] + base;
    if categoryType == Sub then withType[..1] + ["category_id"] + withType[1..] else withType
  }

  /** A change from any field. Choosing the type "parent" also empties the
      parent id; the changed key's error is cleared. */
  function HandleChange(f: Form, name: string, v: Value): (r: Form)
    ensures Get(r.values, name) == v
    ensures forall k :: k != name && k != "category_id" ==> Get(r.values, k) == Get(f.values, k)
    ensures name != "category_type" ==> r.values == Set(f.values, name, v) && r.categoryType == f.categoryType
    ensures name == "category_type" ==>
      && r.categoryType == v
      && Get(r.values, "category_id") == (if v == Parent then Str("") else Get(f.values, "category_id"))
    ensures r.errors == ClearError(f.errors, name)
  {
    if name == "category_type" then
      Form(Set(Set(f.values, "category_type", v), "category_id",
          if v == Parent then Str("") else Get(f.values, "category_id")),
        ClearError(f.errors, name), v)
    else
      Form(Set(f.values, name, v), ClearError(f.errors, name), f.categoryType)
  }

  /** The error map for the three checks, each with its message. */
  function ErrorMap(nameMissing: bool, typeMissing: bool, parentMissing: bool): (r: map<string, string>)
    ensures "name" in r <==> nameMissing
    ensures "category_type" in r <==> typeMissing
    ensures "category_id" in r <==> parentMissing
    ensures forall k :: k in r ==> k == "name" || k == "category_type" || k == "category_id"
  {
    (if nameMissing then map["name" := "Category name is required"] else map[])
    + (if typeMissing then map["category_type" := "Category type is required"] else map[])
    + (if parentMissing then map["category_id" := "Parent category is required"] else map[])
  }

  /** The validation errors of a submit. */
  function Validate(isEdit: bool, f: Form): (r: map<string, string>)
    ensures "name" in r <==> Blank(Get(f.values, "name"))
    ensures "category_type" in r <==> !isEdit && !Truthy(Get(f.values, "category_type"))
    ensures "category_id" in r <==> f.categoryType == Sub && !Truthy(Get(f.values, "category_id"))
    ensures forall k :: k in r ==> k == "name" || k == "category_type" || k == "category_id"
  {
    ErrorMap(
      Blank(Get(f.values, "name")),
      !isEdit && !Truthy(Get(f.values, "category_type")),
      f.categoryType == Sub && !Truthy(Get(f.values, "category_id")))
  }

  /** Submit: any error blocks; otherwise the JSON body with the trimmed
      name, the 1/0 status and, for a chosen parent of a sub-category, its
      id. */
  function Submit(isEdit: bool, f: Form): (r: Submission<Object>)
    ensures r.Blocked? <==> Validate(isEdit, f) != map[]
    ensures r.Blocked? ==> r.errors == Validate(isEdit, f)
    ensures r.Send? ==>
      && Get(f.values, "name").Str?
      && Get(r.payload, "name") == Str(Trim(Get(f.values, "name").s))
      && Get(r.payload, "name") != Str("")
    ensures r.Send? ==> Get(r.payload, "status") == ActiveFlag(Get(f.values, "status"))
    ensures r.Send? ==> ("category_id" in r.payload <==> f.categoryType == Sub && Truthy(Get(f.values, "category_id")))
    ensures r.Send? && "category_id" in r.payload ==> Get(r.payload, "category_id") == Get(f.values, "category_id")
    ensures r.Send? ==> r.payload.Keys <= {"name", "status", "category_id"}
  {
    var errs := Validate(isEdit, f);
    if errs != map[] then Blocked(errs)
    else
      var body := map["name" := Or(OptTrim(Get(f.values, "name")), Str("")),
                      "status" := ActiveFlag(Get(f.values, "status"))];
      Send(if f.categoryType == Sub && Truthy(Get(f.values, "category_id"))
        then body["category_id" := Get(f.values, "category_id")] else body)
  }

  /** A fresh add form cannot be sent: the name is still empty. */
  lemma AddDefaultsBlocked(isEdit: bool)
    ensures Submit(isEdit, AddDefaults()).Blocked?
    ensures "name" in Submit(isEdit, AddDefaults()).errors
  {
    var f := AddDefaults();
    assert Get(f.values, "name") == Str("");
    assert Blank(Get(f.values, "name"));
    assert "name" in Validate(isEdit, f);
  }

  /** A form with no failing check passes validation. */
  lemma NoErrorsWhenChecksPass(isEdit: bool, f: Form)
    requires !Blank(Get(f.values, "name"))
    requires isEdit || Truthy(Get(f.values, "category_type"))
    requires f.categoryType == Sub ==> Truthy(Get(f.values, "category_id"))
    ensures Validate(isEdit, f) == map[]
  {
    var r := Validate(isEdit, f);
    assert forall k :: k !in r;
  }

  /** Editing a sub-category row and saving it unchanged sends the row's
      name, status and parent id back, the id as text. */
  lemma EditSubRoundTrip(c: Object, name: string)
    requires Get(c, "name") == Str(name) && Trim(name) == name && name != ""
    requires Get(c, "category_id").Num? && Truthy(Get(c, "category")) && Get(c, "category") != NoParent
    ensures var r := Submit(true, Init(true, SubRow(c)));
      && r.Send?
      && Get(r.payload, "name") == Str(name)
      && Get(r.payload, "status") == Flag(Truthy(Get(c, "status")))
      && Get(r.payload, "category_id") == Str(ToJsString(Get(c, "category_id")))
  {
    var item := SubRow(c);
    assert Prop(item, "parent_category") == Get(c, "category");
    assert Prop(item, "name") == Str(name);
    assert Prop(item, "rawStatus") == Get(c, "status");
    assert Prop(item, "category_id") == Get(c, "category_id");
    var f := Init(true, item);
    assert f.categoryType == Sub;
    assert Get(f.values, "name") == Str(name);
    DigitsNonEmpty(Get(c, "category_id").n);
    assert Get(f.values, "category_id") == Str(ToJsString(Get(c, "category_id")));
    assert Get(f.values, "status") == StatusText(Get(c, "status"));
    NoErrorsWhenChecksPass(true, f);
  }

  lemma DigitsNonEmpty(n: int)
    ensures NumToString(n) != ""
  {
  }

  // -------------------------------------------------------------------
  // Opening a main category for edit

  /** As written: a main-category row has no `parent_category`, which is
      not "—", so the page treats it as a sub-category and refuses to save
      it until a parent is picked. */
  lemma MainRowEditBlocked(c: Object)
    ensures Init(true, ParentRow(c)).categoryType == Sub
    ensures Submit(true, Init(true, ParentRow(c))).Blocked?
    ensures "category_id" in Submit(true, Init(true, ParentRow(c))).errors
    ensures Reset(true, ParentRow(c)).categoryType == Sub
    ensures "category_id" in Submit(true, Reset(true, ParentRow(c))).errors
  {
    assert Prop(ParentRow(c), "parent_category") == Undefined;
    assert Prop(ParentRow(c), "category_id") == Undefined;
  }

  lemma ParentRowProps(c: Object)
    ensures Prop(ParentRow(c), "parent_category") == Undefined
    ensures Prop(ParentRow(c), "name") == Or(Get(c, "name"), NoParent)
  {
  }

  /** The page title's own test for a main category: no parent, or "—". */
  predicate IsParentCategory(item: Value)
  {
    !Truthy(Prop(item, "parent_category")) || Prop(item, "parent_category") == NoParent
  }

  /** Corrected edit values: the type follows the same test as the page's
      title, and a main category carries no parent id. */
  function EditValuesFixed(item: Value, stringify: bool): (r: Form)
    ensures r.categoryType == Parent <==> IsParentCategory(item)
    ensures r.categoryType == Sub <==> !IsParentCategory(item)
    ensures IsParentCategory(item) ==> Get(r.values, "category_id") == Str("")
    ensures !IsParentCategory(item) ==> r == EditValues(item, stringify)
    ensures r.values.Keys == EditValues(item, stringify).values.Keys
    ensures forall k :: k != "category_id" ==> Get(r.values, k) == Get(EditValues(item, stringify).values, k)
  {
    var f := EditValues(item, stringify);
    if IsParentCategory(item) then f.(values := Set(f.values, "category_id", Str("")), categoryType := Parent)
    else f.(categoryType := Sub)
  }

  /** Corrected opening form. */
  function InitFixed(isEdit: bool, item: Value): (r: Form)
    ensures isEdit && Truthy(item) ==> (r.categoryType == Parent <==> IsParentCategory(item))
    ensures isEdit && Truthy(item) && IsParentCategory(item) ==> Get(r.values, "category_id") == Str("")
    ensures !(isEdit && Truthy(item)) ==> r == Init(isEdit, item)
  {
    if isEdit && Truthy(item) then EditValuesFixed(item, true) else AddDefaults()
  }

  /** Corrected Reset button: the same test as the opening form, the
      parent id kept as stored. */
  function ResetFixed(isEdit: bool, item: Value): (r: Form)
    ensures isEdit && Truthy(item) ==> (r.categoryType == Parent <==> IsParentCategory(item))
    ensures isEdit && Truthy(item) && IsParentCategory(item) ==> Get(r.values, "category_id") == Str("")
    ensures !(isEdit && Truthy(item)) ==> r == Reset(isEdit, item)
  {
    if isEdit && Truthy(item) then EditValuesFixed(item, false) else AddDefaults()
  }

  /** With the correction, resetting a main category gives back its
      opening form, so it saves the same way. */
  lemma MainRowResetFixed(c: Object)
    ensures ResetFixed(true, ParentRow(c)) == InitFixed(true, ParentRow(c))
    ensures ResetFixed(true, ParentRow(c)).categoryType == Parent
  {
    ParentRowProps(c);
    var row := ParentRow(c);
    var a := EditValues(row, false).values;
    var b := EditValues(row, true).values;
    assert a["category_id" := Str("")] == b["category_id" := Str("")];
  }

  /** With the correction, a main category with a proper name is saved as
      a main category, without a parent id. */
  lemma MainRowEditFixed(c: Object, name: string)
    requires Get(c, "name") == Str(name) && Trim(name) != ""
    ensures var r := Submit(true, InitFixed(true, ParentRow(c)));
      && r.Send?
      && "category_id" !in r.payload
      && Get(r.payload, "name") == Str(Trim(name))
  {
    TrimmedNonEmpty(name);
    FixedParentForm(c);
    var f := InitFixed(true, ParentRow(c));
    NoErrorsWhenChecksPass(true, f);
  }

  lemma FixedParentForm(c: Object)
    ensures InitFixed(true, ParentRow(c)).categoryType == Parent
    ensures Get(InitFixed(true, ParentRow(c)).values, "name") == Or(Get(c, "name"), NoParent)
  {
    ParentRowProps(c);
  }

  /** The correction changes nothing for rows that have a parent. */
  lemma InitFixedAgreesOnSubRows(item: Value)
    requires Truthy(Prop(item, "parent_category")) && Prop(item, "parent_category") != NoParent
    ensures InitFixed(true, item) == Init(true, item)
  {
  }
}
