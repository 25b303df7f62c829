/** The branch's add/edit page for financial accounts: three switches sent
    as 1/0 and a logo appended to the FormData body once as held, and a
    second time when it is a newly chosen file. */
module Financial {
  import opened Js
  import opened Forms
  import Fields

  /** The three switches, in the order they are sent. */
  const FlagKeys: seq<string> := ["discount", "description_status", "status"]

  /** The text inputs, in the order they are sent. */
  const TextKeys: seq<string> := ["name", "details", "balance"]

  lemma KeysDistinct()
    ensures forall i, j :: 0 <= i < j < |FlagKeys| ==> FlagKeys[i] != FlagKeys[j]
    ensures forall k :: k in FlagKeys ==> k !in TextKeys && k != "logo"
  {
  }

  /** The values the page starts with. */
  function Initial(): (r: Object)
    ensures Get(r, "name") == Str("") && Get(r, "details") == Str("") && Get(r, "balance") == Str("")
    ensures Get(r, "discount") == Bool(false) && Get(r, "description_status") == Bool(false)
    ensures Get(r, "status") == Bool(true) && Get(r, "logo") == Null
  {
    map["name" := Str(""), "details" := Str(""), "balance" := Str(""),
        "discount" := Bool(false), "description_status" := Bool(false), "status" := Bool(true),
        "logo" := Null]
  }

  /** The values read from a row (`itemData?.…`, so a missing row reads
      every field as undefined): text or "", each flag as its
      truthiness, the logo or null. */
  function RowValues(item: Value): (r: Object)
    ensures forall k :: k in TextKeys ==> Get(r, k) == Or(Prop(item, k), Str(""))
    ensures forall k :: k in FlagKeys ==> Get(r, k) == Bool(Truthy(Prop(item, k)))
    ensures Get(r, "logo") == Or(Prop(item, "logo"), Null)
  {
    map["name" := Or(Prop(item, "name"), Str("")),
        "details" := Or(Prop(item, "details"), Str("")),
        "balance" := Or(Prop(item, "balance"), Str("")),
        "discount" := Bool(Truthy(Prop(item, "discount"))),
        "description_status" := Bool(Truthy(Prop(item, "description_status"))),
        "status" := Bool(Truthy(Prop(item, "status"))),
        "logo" := Or(Prop(item, "logo"), Null)]
  }

  /** The values once the opening effect has run: the row's in edit mode,
      the starting values otherwise. */
  function Init(isEdit: bool, item: Value): (r: Object)
    ensures isEdit && Truthy(item) ==> r == RowValues(item)
    ensures !(isEdit && Truthy(item)) ==> r == Initial()
  {
    if isEdit && Truthy(item) then RowValues(item) else Initial()
  }

  /** The Reset button reads the row whatever the mode. */
  function Reset(item: Value): (r: Object)
    ensures forall k :: k in FlagKeys ==> Get(r, k) == Bool(Truthy(Prop(item, k)))
    ensures !Truthy(item) ==> Get(r, "status") == Bool(false)
  {
    RowValues(item)
  }

  /** In edit mode Reset restores the opening values; without a row it
      switches the account status off, which the opening values have on. */
  lemma ResetVersusInit(isEdit: bool, item: Value)
    ensures isEdit && Truthy(item) ==> Reset(item) == Init(isEdit, item)
    ensures !Truthy(item) ==>
      (&& Reset(item) != Init(isEdit, item)
       && Get(Reset(item), "status") == Bool(false) && Get(Init(isEdit, item), "status") == Bool(true))
  {
    if !Truthy(item) {
      assert Get(Reset(item), "status") != Get(Init(isEdit, item), "status");
    }
  }

  /** The fields shown. */
  function FieldList(): (r: seq<Fields.Field>)
    ensures |r| == 7
    ensures r[0].name == "name" && r[0].required
    ensures forall i :: 1 <= i < |r| ==> !r[i].required
    ensures r[3].name == "logo" && r[3].kind == Fields.FileInput
    ensures forall i :: 4 <= i < |r| ==> r[i].name == FlagKeys[i - 4] && r[i].kind == Fields.Switch
  {
    [Fields.Plain("name", Fields.TextInput, "Financial Account Name", true),
     Fields.Plain("details", Fields.TextInput, "Details / Description", false),
     Fields.Plain("balance", Fields.TextInput, "Initial Balance", false),
     Fields.Plain("logo", Fields.FileInput, "Upload Logo / Icon (optional)", false)]
    + seq(|FlagKeys|, i requires 0 <= i < |FlagKeys| => Fields.Plain(FlagKeys[i], Fields.Switch, FlagLabels[i], false))
  }

  /** The switches' captions. */
  const FlagLabels: seq<string> := ["Discount Enabled", "Visa / Card Payment Enabled", "Account Status"]

  /** The text entries, as held. */
  function Head(values: Object): (r: seq<Entry>)
    ensures |r| == |TextKeys|
    ensures forall i :: 0 <= i < |r| ==> r[i] == Entry(Plain(TextKeys[i]), Get(values, TextKeys[i]))
  {
    seq(|TextKeys|, i requires 0 <= i < |TextKeys| => Entry(Plain(TextKeys[i]), Get(values, TextKeys[i])))
  }

  /** The FormData body of a submit. */
  function Body(values: Object): seq<Entry>
  {
    Head(values) + FlagEntries(values, FlagKeys, false)
      + [Entry(Plain("logo"), Get(values, "logo"))] + ImageEntries("logo", Get(values, "logo"))
  }

  lemma BodySplit(values: Object, key: Key)
    ensures ValuesAt(Body(values), key) ==
      ValuesAt(Head(values), key) + ValuesAt(FlagEntries(values, FlagKeys, false), key)
      + ValuesAt([Entry(Plain("logo"), Get(values, "logo"))], key)
      + ValuesAt(ImageEntries("logo", Get(values, "logo")), key)
  {
    var h := Head(values);
    var f := FlagEntries(values, FlagKeys, false);
    var l := [Entry(Plain("logo"), Get(values, "logo"))];
    var i := ImageEntries("logo", Get(values, "logo"));
    ValuesAtAppend(h + f + l, i, key);
    ValuesAtAppend(h + f, l, key);
    ValuesAtAppend(h, f, key);
  }

  /** What the head carries under a key. */
  lemma HeadAt(values: Object, key: Key)
    ensures ValuesAt(Head(values), key) ==
      if key.Plain? && key.name in TextKeys then [Get(values, key.name)] else []
  {
    var h := Head(values);
    assert h == [h[0]] + [h[1]] + [h[2]];
    ValuesAtAppend([h[0]] + [h[1]], [h[2]], key);
    ValuesAtAppend([h[0]], [h[1]], key);
    ValuesAtSingle(h[0], key);
    ValuesAtSingle(h[1], key);
    ValuesAtSingle(h[2], key);
  }

  /** Every text field is sent once, as held. */
  lemma BodyText(values: Object, k: string)
    requires k in TextKeys
    ensures ValuesAt(Body(values), Plain(k)) == [Get(values, k)]
  {
    var key := Plain(k);
    BodySplit(values, key);
    HeadAt(values, key);
    assert ValuesAt(FlagEntries(values, FlagKeys, false), key) == [] by {
      KeysDistinct();
      FlagEntriesExact(values, FlagKeys, false, k);
    }
    ValuesAtSingle(Entry(Plain("logo"), Get(values, "logo")), key);
    ImageAt("logo", Get(values, "logo"), key);
  }

  /** Every flag is sent once, as 1 when set and 0 otherwise. */
  lemma BodyFlag(values: Object, k: string)
    requires k in FlagKeys
    ensures ValuesAt(Body(values), Plain(k)) == [Flag(Truthy(Get(values, k)))]
  {
    var key := Plain(k);
    BodySplit(values, key);
    assert ValuesAt(Head(values), key) == [] by {
      KeysDistinct();
      HeadAt(values, key);
    }
    assert ValuesAt(FlagEntries(values, FlagKeys, false), key) == [Flag(Truthy(Get(values, k)))] by {
      KeysDistinct();
      FlagEntriesExact(values, FlagKeys, false, k);
    }
    assert ValuesAt([Entry(Plain("logo"), Get(values, "logo"))], key) == [] by {
      KeysDistinct();
      ValuesAtSingle(Entry(Plain("logo"), Get(values, "logo")), key);
    }
    assert ValuesAt(ImageEntries("logo", Get(values, "logo")), key) == [] by {
      KeysDistinct();
      ImageAt("logo", Get(values, "logo"), key);
    }
  }

  /** The logo is always sent once as held, and a second time when it is
      a newly chosen file. */
  lemma BodyLogo(values: Object)
    ensures var v := Get(values, "logo");
      ValuesAt(Body(values), Plain("logo")) == [v] + (if Truthy(v) && !v.Str? then [v] else [])
  {
    var key := Plain("logo");
    BodySplit(values, key);
    HeadAt(values, key);
    assert ValuesAt(FlagEntries(values, FlagKeys, false), key) == [] by {
      KeysDistinct();
      FlagEntriesExact(values, FlagKeys, false, "logo");
    }
    ValuesAtSingle(Entry(Plain("logo"), Get(values, "logo")), key);
    ImageAt("logo", Get(values, "logo"), key);
  }

  /** Opening an account and saving it unchanged sends each flag as the
      truthiness of the row's field, and a stored logo link only once. */
  lemma EditRoundTrip(item: Value, k: string)
    requires Truthy(item) && k in FlagKeys
    ensures ValuesAt(Body(Init(true, item)), Plain(k)) == [Flag(Truthy(Prop(item, k)))]
    ensures Prop(item, "logo").Str? ==> |ValuesAt(Body(Init(true, item)), Plain("logo"))| == 1
  {
    BodyFlag(Init(true, item), k);
    BodyLogo(Init(true, item));
  }
}
