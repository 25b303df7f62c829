/** The branch's add/edit page for cashier accounts: a Zod schema checked
    by Formik before submit, and a FormData body with the eight permission
    and status flags as 1/0. */
module CashierMan {
  import opened Js
  import opened Forms
  import Fields

  /** The eight boolean flags, in the order they are sent. */
  const FlagKeys: seq<string> :=
    ["delivery", "take_away", "dine_in", "online_order", "discount_perimission", "real_order", "void_order", "status"]

  /** The switches' captions, in the order of `FlagKeys`. */
  const FlagLabels: seq<string> :=
    ["Delivery Permission", "Take Away Permission", "Dine In Permission", "Online Order Permission",
     "Discount Permission", "Real Order Permission", "Void Order Permission", "Account Status"]

  const TextKeys: set<string> := {"name", "password", "shift_number", "my_id"}

  lemma FlagKeysDistinct()
    ensures forall i, j :: 0 <= i < j < |FlagKeys| ==> FlagKeys[i] != FlagKeys[j]
    ensures forall k :: k in FlagKeys ==> k !in TextKeys && k != "image" && k != "user_name" && k != "branch_id"
  {
  }

  /** `z.coerce.number().min(1)` on the coerced number (None for NaN). */
  predicate AtLeastOne(n: Option<real>)
  {
    n.Some? && n.value >= 1.0
  }

  /** Whether the schema accepts the value under one key. `toNumber` is
      `Number(v)`, None when it gives NaN. The image may be anything. */
  predicate KeyValid(values: Object, key: string, toNumber: Value -> Option<real>)
  {
    if key == "name" then Get(values, "name").Str? && |Get(values, "name").s| >= 3
    else if key == "password" then PasswordOk(Get(values, "password"))
    else if key == "shift_number" || key == "my_id" then AtLeastOne(toNumber(Get(values, key)))
    else if key in FlagKeys then Get(values, key).Bool?
    else true
  }

  /** The keys the schema rejects. */
  function SchemaErrors(values: Object, toNumber: Value -> Option<real>): (r: set<string>)
    ensures "name" in r <==> !(Get(values, "name").Str? && |Get(values, "name").s| >= 3)
    ensures "password" in r <==> !PasswordOk(Get(values, "password"))
    ensures "shift_number" in r <==> !AtLeastOne(toNumber(Get(values, "shift_number")))
    ensures "my_id" in r <==> !AtLeastOne(toNumber(Get(values, "my_id")))
    ensures forall k :: k in FlagKeys ==> (k in r <==> !Get(values, k).Bool?)
    ensures forall k :: k in r ==> k in TextKeys || k in FlagKeys
  {
    FlagKeysDistinct();
    set k | k in TextKeys + (set f | f in FlagKeys) && !KeyValid(values, k, toNumber)
  }

  /** The add-mode starting values. */
  function Base(): (r: Object)
    ensures Get(r, "name") == Str("") && Get(r, "password") == Str("")
    ensures Get(r, "image") == Null && Get(r, "status") == Bool(true)
    ensures forall k :: k in FlagKeys && k != "status" ==> Get(r, k) == Bool(false)
  {
    map["name" := Str(""), "password" := Str(""), "shift_number" := Str(""), "my_id" := Str(""),
        "image" := Null, "delivery" := Bool(false), "take_away" := Bool(false),
        "dine_in" := Bool(false), "online_order" := Bool(false), "discount_perimission" := Bool(false),
        "real_order" := Bool(false), "void_order" := Bool(false), "status" := Bool(true)]
  }

  /** The opening values: the add-mode defaults, overwritten in edit mode
      by the row. */
  function Init(isEdit: bool, item: Value): (r: Object)
    ensures !(isEdit && Truthy(item)) ==> r == Base()
    ensures Get(r, "password") == Str("")
  {
    if isEdit && Truthy(item) then
      assert "password" !in RowFlags(item) by { FlagKeysDistinct(); }
      Base() + RowText(item) + RowFlags(item)
    else Base()
  }

  /** In edit mode the form opens on the row's text, its stored image link
      and each flag as the truthiness of the row's field. */
  lemma InitEditValues(item: Value)
    requires Truthy(item)
    ensures var r := Init(true, item);
      && Get(r, "name") == Or(Prop(item, "name"), Str(""))
      && Get(r, "shift_number") == Or(Prop(item, "shift_number"), Str(""))
      && Get(r, "my_id") == Or(Prop(item, "my_id"), Str(""))
      && Get(r, "image") == Or(Prop(item, "image_link"), Null)
      && forall k :: k in FlagKeys ==> Get(r, k) == Bool(Truthy(Prop(item, k)))
  {
    FlagKeysDistinct();
    var t := RowText(item);
    var f := RowFlags(item);
    assert forall k :: k in t ==> k !in f;
  }

  /** The text and image values an edit takes from the row. */
  function RowText(item: Value): (r: Object)
    ensures r.Keys == {"name", "shift_number", "my_id", "image"}
    ensures Get(r, "name") == Or(Prop(item, "name"), Str(""))
    ensures Get(r, "shift_number") == Or(Prop(item, "shift_number"), Str(""))
    ensures Get(r, "my_id") == Or(Prop(item, "my_id"), Str(""))
    ensures Get(r, "image") == Or(Prop(item, "image_link"), Null)
  {
    map["name" := Or(Prop(item, "name"), Str("")),
        "shift_number" := Or(Prop(item, "shift_number"), Str("")),
        "my_id" := Or(Prop(item, "my_id"), Str("")),
        "image" := Or(Prop(item, "image_link"), Null)]
  }

  /** `!!itemData[key]` for every flag. */
  function RowFlags(item: Value): (r: Object)
    ensures forall k :: k in r <==> k in FlagKeys
    ensures forall k :: k in FlagKeys ==> Get(r, k) == Bool(Truthy(Prop(item, k)))
  {
    map k | k in FlagKeys :: Bool(Truthy(Prop(item, k)))
  }

  /** Whatever the row holds, the opening form satisfies the flag and
      password parts of the schema. */
  lemma InitPassesFlagsAndPassword(isEdit: bool, item: Value, toNumber: Value -> Option<real>)
    ensures forall k :: k in FlagKeys ==> k !in SchemaErrors(Init(isEdit, item), toNumber)
    ensures "password" !in SchemaErrors(Init(isEdit, item), toNumber)
  {
  }

  /** The add form starts with a name the schema rejects. */
  lemma AddDefaultsRejected(toNumber: Value -> Option<real>)
    ensures "name" in SchemaErrors(Base(), toNumber)
  {
  }

  /** The fields shown. Only the password's required mark depends on the
      mode. */
  function FieldList(isEdit: bool): (r: seq<Fields.Field>)
    ensures |r| == 5 + |FlagKeys|
    ensures r[1].name == "password" && (r[1].required <==> !isEdit)
    ensures forall i :: 5 <= i < |r| ==>
      r[i].name == FlagKeys[i - 5] && r[i].kind == Fields.Switch && r[i].placeholder == FlagLabels[i - 5]
    ensures r[4].name == "image" && r[4].kind == Fields.FileInput
  {
    [Fields.Plain("name", Fields.TextInput, "User Name", true),
     Fields.Plain("password", Fields.TextInput, "Password", !isEdit),
     Fields.Plain("shift_number", Fields.TextInput, "Shift Number", true),
     Fields.Plain("my_id", Fields.TextInput, "My ID", true),
     Fields.Plain("image", Fields.FileInput, "Profile Image", false)]
    + seq(|FlagKeys|, i requires 0 <= i < |FlagKeys| => Fields.Plain(FlagKeys[i], Fields.Switch, FlagLabels[i], false))
  }

  /** The fixed leading entries of the body. */
  function Head(values: Object, userId: Value): seq<Entry>
  {
    [Entry(Plain("user_name"), Get(values, "name")),
     Entry(Plain("branch_id"), Or(userId, Str(""))),
     Entry(Plain("shift_number"), Get(values, "shift_number")),
     Entry(Plain("my_id"), Get(values, "my_id"))]
  }

  /** The FormData body of an accepted form. */
  function Body(values: Object, userId: Value): seq<Entry>
  {
    Head(values, userId) + PasswordEntries(Get(values, "password"))
      + FlagEntries(values, FlagKeys, false) + ImageEntries("image", Get(values, "image"))
  }

  /** Submit: Formik only calls the handler when the schema accepts. */
  function Submit(values: Object, toNumber: Value -> Option<real>, userId: Value): (r: Submission<seq<Entry>>)
    ensures r.Blocked? <==> SchemaErrors(values, toNumber) != {}
    ensures r.Blocked? ==> r.errors.Keys == SchemaErrors(values, toNumber)
    ensures r.Send? ==> r.payload == Body(values, userId)
  {
    FormikSubmit(SchemaErrors(values, toNumber), Body(values, userId))
  }

  lemma BodySplit(values: Object, userId: Value, key: Key)
    ensures ValuesAt(Body(values, userId), key) ==
      ValuesAt(Head(values, userId), key) + ValuesAt(PasswordEntries(Get(values, "password")), key)
      + ValuesAt(FlagEntries(values, FlagKeys, false), key) + ValuesAt(ImageEntries("image", Get(values, "image")), key)
  {
    var h := Head(values, userId);
    var p := PasswordEntries(Get(values, "password"));
    var f := FlagEntries(values, FlagKeys, false);
    var i := ImageEntries("image", Get(values, "image"));
    ValuesAtAppend(h + p + f, i, key);
    ValuesAtAppend(h + p, f, key);
    ValuesAtAppend(h, p, key);
  }

  /** The head carries nothing under the password, image or flag keys. */
  lemma HeadMissing(values: Object, userId: Value, k: string)
    requires k == "password" || k == "image" || k in FlagKeys
    ensures ValuesAt(Head(values, userId), Plain(k)) == []
  {
    ValuesAtMissing(Head(values, userId), Plain(k));
  }

  /** The password is sent only when one was typed. */
  lemma BodyPassword(values: Object, userId: Value)
    ensures ValuesAt(Body(values, userId), Plain("password")) ==
      if Truthy(Get(values, "password")) then [Get(values, "password")] else []
  {
    var key := Plain("password");
    BodySplit(values, userId, key);
    assert ValuesAt(Head(values, userId), key) == [] by { HeadMissing(values, userId, "password"); }
    assert ValuesAt(FlagEntries(values, FlagKeys, false), key) == [] by {
      FlagKeysDistinct();
      FlagEntriesExact(values, FlagKeys, false, "password");
    }
    assert ValuesAt(ImageEntries("image", Get(values, "image")), key) == [] by {
      ImageAt("image", Get(values, "image"), key);
    }
    PasswordAt(Get(values, "password"), key);
  }

  /** Every flag is sent once, as 1 when set and 0 otherwise. */
  lemma BodyFlag(values: Object, userId: Value, k: string)
    requires k in FlagKeys
    ensures ValuesAt(Body(values, userId), Plain(k)) == [Flag(Truthy(Get(values, k)))]
  {
    var key := Plain(k);
    BodySplit(values, userId, key);
    assert ValuesAt(Head(values, userId), key) == [] by { HeadMissing(values, userId, k); }
    assert ValuesAt(PasswordEntries(Get(values, "password")), key) == [] by {
      FlagKeysDistinct();
      PasswordAt(Get(values, "password"), key);
    }
    assert ValuesAt(FlagEntries(values, FlagKeys, false), key) == [Flag(Truthy(Get(values, k)))] by {
      FlagKeysDistinct();
      FlagEntriesExact(values, FlagKeys, false, k);
    }
    assert ValuesAt(ImageEntries("image", Get(values, "image")), key) == [] by {
      FlagKeysDistinct();
      ImageAt("image", Get(values, "image"), key);
    }
  }

  /** The image is sent only when it is a newly chosen file, never the
      stored link. */
  lemma BodyImage(values: Object, userId: Value)
    ensures ValuesAt(Body(values, userId), Plain("image")) ==
      if Truthy(Get(values, "image")) && !Get(values, "image").Str? then [Get(values, "image")] else []
  {
    var key := Plain("image");
    BodySplit(values, userId, key);
    assert ValuesAt(Head(values, userId), key) == [] by { HeadMissing(values, userId, "image"); }
    assert ValuesAt(PasswordEntries(Get(values, "password")), key) == [] by {
      PasswordAt(Get(values, "password"), key);
    }
    assert ValuesAt(FlagEntries(values, FlagKeys, false), key) == [] by {
      FlagKeysDistinct();
      FlagEntriesExact(values, FlagKeys, false, "image");
    }
    ImageAt("image", Get(values, "image"), key);
  }

  /** Saving an edit without choosing a new image sends no image. */
  lemma EditKeepsStoredImage(item: Value, userId: Value)
    requires Truthy(item) && Prop(item, "image_link").Str?
    ensures ValuesAt(Body(Init(true, item), userId), Plain("image")) == []
  {
    BodyImage(Init(true, item), userId);
  }
}
