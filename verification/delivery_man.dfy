/** The branch's add/edit page for delivery staff: a Zod schema checked by
    Formik before submit, and a FormData body whose three flags are sent
    as the text "1"/"0" and whose two images are sent only as real files. */
module DeliveryMan {
  import opened Js
  import opened Forms
  import Fields

  /** The three switches, in the order they are sent. */
  const FlagKeys: seq<string> := ["status", "chat_status", "phone_status"]

  /** The text inputs, in the order they are sent. */
  const TextKeys: seq<string> := ["f_name", "l_name", "email", "phone", "identity_type", "identity_number"]

  lemma KeysDistinct()
    ensures forall i, j :: 0 <= i < j < |FlagKeys| ==> FlagKeys[i] != FlagKeys[j]
    ensures forall k :: k in FlagKeys ==>
      (k !in TextKeys && k != "password" && k != "image" && k != "identity_image" && k != "branch_id")
  {
  }

  /** `z.string().min(n)`: a string of at least `n` characters. */
  predicate MinText(v: Value, n: nat)
  {
    v.Str? && |v.s| >= n
  }

  /** Whether the schema accepts the value under one key. `isEmail` is
      Zod's e-mail check; the two images may be anything. */
  predicate KeyValid(values: Object, key: string, isEmail: string -> bool)
  {
    var v := Get(values, key);
    if key == "f_name" || key == "l_name" then MinText(v, 2)
    else if key == "email" then v.Str? && isEmail(v.s)
    else if key == "phone" then MinText(v, 8)
    else if key == "password" then PasswordOk(v)
    else if key == "identity_type" || key == "identity_number" then MinText(v, 1)
    else if key in FlagKeys then v.Bool?
    else true
  }

  /** Every key the schema checks. */
  const Checked: set<string> :=
    {"f_name", "l_name", "email", "phone", "password", "identity_type", "identity_number",
     "status", "chat_status", "phone_status"}

  /** The keys the schema rejects: the names need two characters, the
      phone eight, the identity fields one; the e-mail must pass Zod's
      check, the password must be empty or six characters long, and the
      switches must hold booleans. */
  function SchemaErrors(values: Object, isEmail: string -> bool): (r: set<string>)
    ensures "f_name" in r <==> !MinText(Get(values, "f_name"), 2)
    ensures "l_name" in r <==> !MinText(Get(values, "l_name"), 2)
    ensures "email" in r <==> !(Get(values, "email").Str? && isEmail(Get(values, "email").s))
    ensures "phone" in r <==> !MinText(Get(values, "phone"), 8)
    ensures "password" in r <==> !PasswordOk(Get(values, "password"))
    ensures "identity_type" in r <==> !MinText(Get(values, "identity_type"), 1)
    ensures "identity_number" in r <==> !MinText(Get(values, "identity_number"), 1)
    ensures forall k :: k in FlagKeys ==> (k in r <==> !Get(values, k).Bool?)
    ensures forall k :: k in r ==> k in TextKeys || k in FlagKeys || k == "password"
  {
    set k | k in Checked && !KeyValid(values, k, isEmail)
  }

  /** The add-mode starting values. */
  function Base(): (r: Object)
    ensures Get(r, "f_name") == Str("") && Get(r, "l_name") == Str("") && Get(r, "email") == Str("")
    ensures Get(r, "phone") == Str("") && Get(r, "identity_number") == Str("")
    ensures Get(r, "identity_type") == Str("Card") && Get(r, "password") == Str("")
    ensures Get(r, "image") == Null && Get(r, "identity_image") == Null
    ensures forall k :: k in FlagKeys ==> Get(r, k) == Bool(true)
  {
    map["f_name" := Str(""), "l_name" := Str(""), "email" := Str(""), "phone" := Str(""),
        "password" := Str(""), "identity_type" := Str("Card"), "identity_number" := Str(""),
        "image" := Null, "identity_image" := Null,
        "status" := Bool(true), "chat_status" := Bool(true), "phone_status" := Bool(true)]
  }

  /** The text values an edit takes from the row. */
  function RowText(item: Value): (r: Object)
    ensures r.Keys == {"f_name", "l_name", "email", "phone", "identity_type", "identity_number"}
    ensures Get(r, "f_name") == Or(Prop(item, "f_name"), Str(""))
    ensures Get(r, "l_name") == Or(Prop(item, "l_name"), Str(""))
    ensures Get(r, "email") == Or(Prop(item, "email"), Str(""))
    ensures Get(r, "phone") == Or(Prop(item, "phone"), Str(""))
    ensures Get(r, "identity_type") == Or(Prop(item, "identity_type"), Str("Card"))
    ensures Get(r, "identity_number") == Or(Prop(item, "identity_number"), Str(""))
  {
    map["f_name" := Or(Prop(item, "f_name"), Str("")),
        "l_name" := Or(Prop(item, "l_name"), Str("")),
        "email" := Or(Prop(item, "email"), Str("")),
        "phone" := Or(Prop(item, "phone"), Str("")),
        "identity_type" := Or(Prop(item, "identity_type"), Str("Card")),
        "identity_number" := Or(Prop(item, "identity_number"), Str(""))]
  }

  /** `itemData[key] === 1` for every flag. */
  function RowFlags(item: Value): (r: Object)
    ensures forall k :: k in r <==> k in FlagKeys
    ensures forall k :: k in FlagKeys ==> Get(r, k) == Bool(Prop(item, k) == Num(1))
  {
    map k | k in FlagKeys :: Bool(Prop(item, k) == Num(1))
  }

  /** The opening values: the add-mode defaults, overwritten in edit mode
      by the row's text and flags. The password and both images always
      start empty. */
  function Init(isEdit: bool, item: Value): (r: Object)
    ensures !(isEdit && Truthy(item)) ==> r == Base()
    ensures Get(r, "password") == Str("")
    ensures Get(r, "image") == Null && Get(r, "identity_image") == Null
  {
    if isEdit && Truthy(item) then
      var t := RowText(item);
      var f := RowFlags(item);
      assert forall k :: k in f ==> k in FlagKeys;
      assert "password" !in t && "image" !in t && "identity_image" !in t;
      Base() + t + f
    else Base()
  }

  /** In edit mode the form opens on the row's text, "Card" when the row
      has no identity type, and each flag set exactly when the row holds
      the number 1. */
  lemma InitEditValues(item: Value)
    requires Truthy(item)
    ensures var r := Init(true, item);
      && Get(r, "f_name") == Or(Prop(item, "f_name"), Str(""))
      && Get(r, "l_name") == Or(Prop(item, "l_name"), Str(""))
      && Get(r, "email") == Or(Prop(item, "email"), Str(""))
      && Get(r, "phone") == Or(Prop(item, "phone"), Str(""))
      && Get(r, "identity_type") == Or(Prop(item, "identity_type"), Str("Card"))
      && Get(r, "identity_number") == Or(Prop(item, "identity_number"), Str(""))
      && forall k :: k in FlagKeys ==> Get(r, k) == Bool(Prop(item, k) == Num(1))
  {
    KeysDistinct();
    var t := RowText(item);
    var f := RowFlags(item);
    assert forall k :: k in t ==> k !in f;
  }

  /** The fields shown. Only the password's required mark depends on the
      mode. */
  function FieldList(isEdit: bool): (r: seq<Fields.Field>)
    ensures |r| == 12
    ensures r[4].name == "password" && (r[4].required <==> !isEdit)
    ensures r[5].name == "identity_type" && r[5].kind == Fields.Select
    ensures r[7].name == "image" && r[7].kind == Fields.FileInput
    ensures r[8].name == "identity_image" && r[8].kind == Fields.FileInput
    ensures forall i :: 9 <= i < 12 ==> r[i].name == FlagKeys[i - 9] && r[i].kind == Fields.Switch
  {
    [Fields.Plain("f_name", Fields.TextInput, "First Name", true),
     Fields.Plain("l_name", Fields.TextInput, "Last Name", true),
     Fields.Plain("email", Fields.TextInput, "Email", true),
     Fields.Plain("phone", Fields.TextInput, "Phone Number", true),
     Fields.Plain("password", Fields.TextInput, "Password", !isEdit),
     Fields.Plain("identity_type", Fields.Select, "ID Type", false),
     Fields.Plain("identity_number", Fields.TextInput, "ID Number", false),
     Fields.Plain("image", Fields.FileInput, "Profile Image", false),
     Fields.Plain("identity_image", Fields.FileInput, "ID Image Document", false)]
    + seq(|FlagKeys|, i requires 0 <= i < |FlagKeys| => Fields.Plain(FlagKeys[i], Fields.Switch, FlagLabels[i], false))
  }

  /** The switches' captions. */
  const FlagLabels: seq<string> := ["Active", "Enable Chat", "Verify Phone"]

  /** `String(user?.id || '')`: the signed-in branch's id as text. */
  function BranchId(user: Value): (r: Value)
    ensures r.Str?
    ensures !Truthy(Prop(user, "id")) ==> r == Str("")
    ensures Truthy(Prop(user, "id")) ==> r == Str(ToJsString(Prop(user, "id")))
    ensures Prop(user, "id").Num? && Prop(user, "id").n != 0 ==> r == Str(NumToString(Prop(user, "id").n))
  {
    Str(ToJsString(Or(Prop(user, "id"), Str(""))))
  }

  /** The text entries, as typed, and the branch id. */
  function Head(values: Object, user: Value): (r: seq<Entry>)
    ensures |r| == |TextKeys| + 1
    ensures forall i :: 0 <= i < |TextKeys| ==> r[i] == Entry(Plain(TextKeys[i]), Get(values, TextKeys[i]))
    ensures r[|TextKeys|] == Entry(Plain("branch_id"), BranchId(user))
  {
    seq(|TextKeys|, i requires 0 <= i < |TextKeys| => Entry(Plain(TextKeys[i]), Get(values, TextKeys[i])))
      + [Entry(Plain("branch_id"), BranchId(user))]
  }

  /** `value instanceof File`: only a real file is appended. */
  function FileEntries(name: string, v: Value): (r: seq<Entry>)
    ensures |r| <= 1
    ensures |r| == 1 <==> v.File?
    ensures |r| == 1 ==> r[0] == Entry(Plain(name), v)
  {
    if v.File? then [Entry(Plain(name), v)] else []
  }

  /** The FormData body of an accepted form. */
  function Body(values: Object, user: Value): seq<Entry>
  {
    Head(values, user) + PasswordEntries(Get(values, "password"))
      + FlagEntries(values, FlagKeys, true)
      + FileEntries("image", Get(values, "image")) + FileEntries("identity_image", Get(values, "identity_image"))
  }

  /** Submit: Formik only calls the handler when the schema accepts. */
  function Submit(values: Object, isEmail: string -> bool, user: Value): (r: Submission<seq<Entry>>)
    ensures r.Blocked? <==> SchemaErrors(values, isEmail) != {}
    ensures r.Blocked? ==> r.errors.Keys == SchemaErrors(values, isEmail)
    ensures r.Send? ==> r.payload == Body(values, user)
  {
    FormikSubmit(SchemaErrors(values, isEmail), Body(values, user))
  }

  /** A fresh add form is refused for the names, the phone and the
      identity number. */
  lemma AddDefaultsRejected(isEmail: string -> bool)
    ensures var e := SchemaErrors(Base(), isEmail);
      && "f_name" in e && "l_name" in e && "phone" in e && "identity_number" in e
      && "identity_type" !in e && "password" !in e
      && forall k :: k in FlagKeys ==> k !in e
  {
  }

  lemma BodySplit(values: Object, user: Value, key: Key)
    ensures ValuesAt(Body(values, user), key) ==
      ValuesAt(Head(values, user), key) + ValuesAt(PasswordEntries(Get(values, "password")), key)
      + ValuesAt(FlagEntries(values, FlagKeys, true), key)
      + ValuesAt(FileEntries("image", Get(values, "image")), key)
      + ValuesAt(FileEntries("identity_image", Get(values, "identity_image")), key)
  {
    var h := Head(values, user);
    var p := PasswordEntries(Get(values, "password"));
    var f := FlagEntries(values, FlagKeys, true);
    var i := FileEntries("image", Get(values, "image"));
    var d := FileEntries("identity_image", Get(values, "identity_image"));
    ValuesAtAppend(h + p + f + i, d, key);
    ValuesAtAppend(h + p + f, i, key);
    ValuesAtAppend(h + p, f, key);
    ValuesAtAppend(h, p, key);
  }

  /** The keys of the head entries. */
  lemma HeadKeys(values: Object, user: Value, key: Key)
    requires key.Plain? ==> key.name !in TextKeys && key.name != "branch_id"
    ensures ValuesAt(Head(values, user), key) == []
  {
    var h := Head(values, user);
    forall i | 0 <= i < |h| ensures h[i].key != key {
      if i < |TextKeys| {
        assert h[i].key == Plain(TextKeys[i]);
      }
    }
    ValuesAtMissing(h, key);
  }

  /** The branch id is sent once, as the signed-in user's id in text. */
  lemma BodyBranchId(values: Object, user: Value)
    ensures ValuesAt(Body(values, user), Plain("branch_id")) == [BranchId(user)]
  {
    var key := Plain("branch_id");
    BodySplit(values, user, key);
    assert ValuesAt(Head(values, user), key) == [BranchId(user)] by {
      var h := Head(values, user);
      var n := |TextKeys|;
      ValuesAtMissing(h[..n], key);
      assert h == h[..n] + [h[n]];
      ValuesAtAppend(h[..n], [h[n]], key);
      ValuesAtSingle(h[n], key);
    }
    assert ValuesAt(PasswordEntries(Get(values, "password")), key) == [] by {
      PasswordAt(Get(values, "password"), key);
    }
    assert ValuesAt(FlagEntries(values, FlagKeys, true), key) == [] by {
      KeysDistinct();
      FlagEntriesExact(values, FlagKeys, true, "branch_id");
    }
    FileAt("image", Get(values, "image"), key);
    FileAt("identity_image", Get(values, "identity_image"), key);
  }

  /** What a file entry carries under a key. */
  lemma FileAt(name: string, v: Value, key: Key)
    ensures ValuesAt(FileEntries(name, v), key) == if key == Plain(name) && v.File? then [v] else []
  {
    var es := FileEntries(name, v);
    if |es| == 1 { ValuesAtSingle(es[0], key); }
  }

  /** The body's values under a key that is neither a text key nor the
      branch id: whatever the password, flag and file entries carry. */
  lemma BodyAt(values: Object, user: Value, key: Key)
    requires key.Plain? ==> key.name !in TextKeys && key.name != "branch_id"
    ensures ValuesAt(Body(values, user), key) ==
      ValuesAt(PasswordEntries(Get(values, "password")), key)
      + ValuesAt(FlagEntries(values, FlagKeys, true), key)
      + ValuesAt(FileEntries("image", Get(values, "image")), key)
      + ValuesAt(FileEntries("identity_image", Get(values, "identity_image")), key)
  {
    BodySplit(values, user, key);
    var h := ValuesAt(Head(values, user), key);
    var p := ValuesAt(PasswordEntries(Get(values, "password")), key);
    assert h == [] by { HeadKeys(values, user, key); }
    assert h + p == p;
  }

  /** The password is sent only when one was typed. */
  lemma BodyPassword(values: Object, user: Value)
    ensures ValuesAt(Body(values, user), Plain("password")) ==
      if Truthy(Get(values, "password")) then [Get(values, "password")] else []
  {
    var key := Plain("password");
    var p := Get(values, "password");
    BodyAt(values, user, key);
    assert ValuesAt(FlagEntries(values, FlagKeys, true), key) == [] by {
      KeysDistinct();
      FlagEntriesExact(values, FlagKeys, true, "password");
    }
    assert ValuesAt(FileEntries("image", Get(values, "image")), key) == [] by {
      FileAt("image", Get(values, "image"), key);
    }
    assert ValuesAt(FileEntries("identity_image", Get(values, "identity_image")), key) == [] by {
      FileAt("identity_image", Get(values, "identity_image"), key);
    }
    PasswordAt(p, key);
  }

  /** Every flag is sent once, as the text "1" when set and "0" otherwise. */
  lemma BodyFlag(values: Object, user: Value, k: string)
    requires k in FlagKeys
    ensures ValuesAt(Body(values, user), Plain(k)) == [BoolText(Truthy(Get(values, k)))]
  {
    var key := Plain(k);
    KeysDistinct();
    BodyAt(values, user, key);
    assert ValuesAt(PasswordEntries(Get(values, "password")), key) == [] by {
      PasswordAt(Get(values, "password"), key);
    }
    assert ValuesAt(FileEntries("image", Get(values, "image")), key) == [] by {
      FileAt("image", Get(values, "image"), key);
    }
    assert ValuesAt(FileEntries("identity_image", Get(values, "identity_image")), key) == [] by {
      FileAt("identity_image", Get(values, "identity_image"), key);
    }
    assert ValuesAt(FlagEntries(values, FlagKeys, true), key) == [BoolText(Truthy(Get(values, k)))] by {
      FlagEntriesExact(values, FlagKeys, true, k);
    }
  }

  /** Each image is sent only when it holds a real file. */
  lemma BodyFile(values: Object, user: Value, name: string)
    requires name == "image" || name == "identity_image"
    ensures ValuesAt(Body(values, user), Plain(name)) ==
      if Get(values, name).File? then [Get(values, name)] else []
  {
    var key := Plain(name);
    BodyAt(values, user, key);
    assert ValuesAt(PasswordEntries(Get(values, "password")), key) == [] by {
      PasswordAt(Get(values, "password"), key);
    }
    assert ValuesAt(FlagEntries(values, FlagKeys, true), key) == [] by {
      KeysDistinct();
      FlagEntriesExact(values, FlagKeys, true, name);
    }
    var v := Get(values, name);
    var a := ValuesAt(FileEntries("image", Get(values, "image")), key);
    var b := ValuesAt(FileEntries("identity_image", Get(values, "identity_image")), key);
    assert a + b == (if v.File? then [v] else []) by {
      FileAt("image", Get(values, "image"), key);
      FileAt("identity_image", Get(values, "identity_image"), key);
      if name == "image" {
        assert b == [];
      } else {
        assert a == [];
      }
    }
  }

  /** Saving an edit unchanged sends each flag as "1" exactly when the row
      held the number 1, and sends no image. */
  lemma EditRoundTripFlags(item: Value, user: Value, k: string)
    requires Truthy(item) && k in FlagKeys
    ensures ValuesAt(Body(Init(true, item), user), Plain(k)) == [BoolText(Prop(item, k) == Num(1))]
    ensures ValuesAt(Body(Init(true, item), user), Plain("image")) == []
    ensures ValuesAt(Body(Init(true, item), user), Plain("identity_image")) == []
  {
    InitEditValues(item);
    BodyFlag(Init(true, item), user, k);
    BodyFile(Init(true, item), user, "image");
    BodyFile(Init(true, item), user, "identity_image");
  }
}
