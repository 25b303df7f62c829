/** The branch's add/edit page for store keepers: values held in a plain
    object, a status switch that the page declares as a string switch, and
    a FormData body with an optional password and image. */
module BranchStockMan {
  import opened Js
  import opened Forms
  import Fields

  /** `itemData.store?.id?.toString() || ''`: the row's store id as text,
      "" when there is none. */
  function StoreId(item: Value): (r: Value)
    ensures r.Str?
    ensures var id := Prop(Prop(item, "store"), "id");
      (id.Undefined? || id.Null?) ==> r == Str("")
    ensures Prop(Prop(item, "store"), "id").Num? ==> r == Str(NumToString(Prop(Prop(item, "store"), "id").n))
  {
    var id := Prop(Prop(item, "store"), "id");
    if id.Undefined? || id.Null? then Str("")
    else Or(Str(ToJsString(id)), Str(""))
  }

  /** The add-mode values. */
  function AddDefaults(): (r: Object)
    ensures Get(r, "user_name") == Str("") && Get(r, "phone") == Str("") && Get(r, "password") == Str("")
    ensures Get(r, "store_id") == Str("") && Get(r, "status") == Str("Active") && Get(r, "image") == Null
  {
    map["user_name" := Str(""), "phone" := Str(""), "password" := Str(""),
        "store_id" := Str(""), "status" := Str("Active"), "image" := Null]
  }

  /** The values the opening effect sets, and the same values the Reset
      button sets again: the row's fields in edit mode with an empty
      password, the add defaults otherwise. */
  function Init(isEdit: bool, item: Value): (r: Object)
    ensures !(isEdit && Truthy(item)) ==> r == AddDefaults()
    ensures Get(r, "password") == Str("")
    ensures isEdit && Truthy(item) ==>
      && Get(r, "user_name") == Or(Prop(item, "user_name"), Str(""))
      && Get(r, "phone") == Or(Prop(item, "phone"), Str(""))
      && Get(r, "store_id") == StoreId(item)
      && (Get(r, "status") == Str("Active") <==> Truthy(Prop(item, "rawStatus")))
      && Get(r, "image") == Or(Prop(item, "image"), Null)
  {
    if isEdit && Truthy(item) then
      map["user_name" := Or(Prop(item, "user_name"), Str("")),
          "phone" := Or(Prop(item, "phone"), Str("")),
          "password" := Str(""),
          "store_id" := StoreId(item),
          "status" := StatusText(Prop(item, "rawStatus")),
          "image" := Or(Prop(item, "image"), Null)]
    else AddDefaults()
  }

  /** The fields shown. Only the password's required mark depends on the
      mode. */
  function FieldList(isEdit: bool): (r: seq<Fields.Field>)
    ensures |r| == 6
    ensures r[2].name == "password" && (r[2].required <==> !isEdit)
    ensures r[0].required && forall i :: 1 <= i < |r| && i != 2 ==> !r[i].required
    ensures r[3].name == "store_id" && r[3].kind == Fields.Select
    ensures r[4].name == "image" && r[4].kind == Fields.FileInput
    ensures r[5] == Fields.StringStatusSwitch
  {
    [Fields.Plain("user_name", Fields.TextInput, "User Name", true),
     Fields.Plain("phone", Fields.TextInput, "Phone Number", false),
     Fields.Plain("password", Fields.TextInput, "Password", !isEdit),
     Fields.Plain("store_id", Fields.Select, "Select Store", false),
     Fields.Plain("image", Fields.FileInput, "Profile Image", false),
     Fields.StringStatusSwitch]
  }

  /** The entries before the optional password. */
  function Head(values: Object): seq<Entry>
  {
    [Entry(Plain("user_name"), Or(Get(values, "user_name"), Str(""))),
     Entry(Plain("phone"), Or(Get(values, "phone"), Str("")))]
  }

  /** The entries after the optional password. */
  function Tail(values: Object): seq<Entry>
  {
    [Entry(Plain("store_id"), Or(Get(values, "store_id"), Str(""))),
     Entry(Plain("status"), ActiveFlag(Get(values, "status")))]
  }

  /** The FormData body of a submit; the page sends whatever is held. */
  function Body(values: Object): seq<Entry>
  {
    Head(values) + PasswordEntries(Get(values, "password")) + Tail(values)
      + ImageEntries("image", Get(values, "image"))
  }

  lemma BodySplit(values: Object, key: Key)
    ensures ValuesAt(Body(values), key) ==
      ValuesAt(Head(values), key) + ValuesAt(PasswordEntries(Get(values, "password")), key)
      + ValuesAt(Tail(values), key) + ValuesAt(ImageEntries("image", Get(values, "image")), key)
  {
    var h := Head(values);
    var p := PasswordEntries(Get(values, "password"));
    var t := Tail(values);
    var i := ImageEntries("image", Get(values, "image"));
    ValuesAtAppend(h + p + t, i, key);
    ValuesAtAppend(h + p, t, key);
    ValuesAtAppend(h, p, key);
  }

  /** What a two-entry list carries under a key. */
  lemma PairAt(a: Entry, b: Entry, key: Key)
    ensures ValuesAt([a, b], key) ==
      (if a.key == key then [a.val] else []) + (if b.key == key then [b.val] else [])
  {
    assert [a, b] == [a] + [b];
    ValuesAtAppend([a], [b], key);
    ValuesAtSingle(a, key);
    ValuesAtSingle(b, key);
  }

  /** The user name, phone and store id are always sent once, "" when
      empty; the status is sent once, 1 exactly for "Active". */
  lemma BodyFixedEntries(values: Object, name: string)
    requires name in {"user_name", "phone", "store_id", "status"}
    ensures ValuesAt(Body(values), Plain(name)) ==
      if name == "status" then [ActiveFlag(Get(values, "status"))] else [Or(Get(values, name), Str(""))]
  {
    var key := Plain(name);
    BodySplit(values, key);
    var h := Head(values);
    var t := Tail(values);
    PairAt(h[0], h[1], key);
    assert h == [h[0], h[1]];
    PairAt(t[0], t[1], key);
    assert t == [t[0], t[1]];
    PasswordAt(Get(values, "password"), key);
    ImageAt("image", Get(values, "image"), key);
  }

  /** The password is sent only when one was typed. */
  lemma BodyPassword(values: Object)
    ensures ValuesAt(Body(values), Plain("password")) ==
      if Truthy(Get(values, "password")) then [Get(values, "password")] else []
  {
    var key := Plain("password");
    BodySplit(values, key);
    ValuesAtMissing(Head(values), key);
    ValuesAtMissing(Tail(values), key);
    PasswordAt(Get(values, "password"), key);
    ImageAt("image", Get(values, "image"), key);
  }

  /** The image is sent only when it is a newly chosen file, never the
      stored link. */
  lemma BodyImage(values: Object)
    ensures ValuesAt(Body(values), Plain("image")) ==
      if Truthy(Get(values, "image")) && !Get(values, "image").Str? then [Get(values, "image")] else []
  {
    var key := Plain("image");
    BodySplit(values, key);
    ValuesAtMissing(Head(values), key);
    ValuesAtMissing(Tail(values), key);
    PasswordAt(Get(values, "password"), key);
    ImageAt("image", Get(values, "image"), key);
  }

  /** Opening a row and saving it unchanged sends no password, the row's
      store id as text, its status as 1/0 and, when the row's image is a
      stored link, no image. */
  lemma EditRoundTrip(item: Value)
    requires Truthy(item)
    ensures ValuesAt(Body(Init(true, item)), Plain("password")) == []
    ensures ValuesAt(Body(Init(true, item)), Plain("store_id")) == [StoreId(item)]
    ensures ValuesAt(Body(Init(true, item)), Plain("status")) == [Flag(Truthy(Prop(item, "rawStatus")))]
    ensures Prop(item, "image").Str? ==> ValuesAt(Body(Init(true, item)), Plain("image")) == []
  {
    var v := Init(true, item);
    BodyPassword(v);
    BodyFixedEntries(v, "store_id");
    assert Or(StoreId(item), Str("")) == StoreId(item) by {
      if !Truthy(StoreId(item)) { assert StoreId(item) == Str(""); }
    }
    BodyFixedEntries(v, "status");
    BodyImage(v);
  }

  /** Toggling the status switch on sends 1 and off sends 0, with the
      switch writing back the text the page declares. */
  lemma ToggleThenSubmit(values: Object, checked: bool)
    ensures ValuesAt(Body(Fields.ToggleStringStatus(values, checked)), Plain("status")) == [Flag(checked)]
  {
    BodyFixedEntries(Fields.ToggleStringStatus(values, checked), "status");
  }

  /** The switch as written: it shows the stored "Active" as off, and when
      the user then turns it on it writes the boolean true, which the
      body sends as status 0. */
  lemma StatusSwitchAsWritten(isEdit: bool, item: Value)
    requires !(isEdit && Truthy(item))
    ensures !Fields.SwitchChecked(Get(Init(isEdit, item), "status"))
    ensures Fields.Produced(Fields.StringStatusSwitch.kind, Fields.Toggled(true)) == Some(Bool(true))
    ensures ValuesAt(Body(Set(Init(isEdit, item), "status", Bool(true))), Plain("status")) == [Num(0)]
  {
    BodyFixedEntries(Set(Init(isEdit, item), "status", Bool(true)), "status");
  }
}
