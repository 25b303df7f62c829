/** The branch's add/edit page for cashiers: one name per language (only
    English is required), an active switch, and a FormData body that
    carries every filled-in name under its position in the list. */
module Cashier {
  import opened Js
  import opened Forms
  import opened MultiLanguageNames
  import Fields

  datatype Form = Form(active: bool, names: seq<NameEntry>, errors: Object)

  /** `translation_name.toLowerCase() === 'english'` */
  predicate IsEnglish(e: NameEntry)
  {
    e.translationName.Str? && Lower(e.translationName.s) == "english"
  }

  /** The error and field key of one language's name input. */
  function NameKey(id: Value): string
  {
    "name_" + ToJsString(id)
  }

  /** The name stored for a language on the row being edited:
      `cashier_names.find(cn => cn.translation_id === id)?.name || ''`.
      The first entry for the language decides; without one, or without
      a list, the name is empty. */
  function StoredName(cashierNames: Value, id: Value): (r: string)
    ensures !cashierNames.Arr? ==> r == ""
    ensures cashierNames.Arr? ==> FirstEntryName(cashierNames.items, id, 0, r)
    ensures r != "" ==>
      && cashierNames.Arr?
      && exists j :: 0 <= j < |cashierNames.items| && OfferedName(cashierNames.items[j], id, r)
  {
    if cashierNames.Arr? then StoredNameFrom(cashierNames.items, id, 0) else ""
  }

  /** A stored entry for language `id`. */
  predicate ForLanguage(cn: Value, id: Value)
  {
    Prop(cn, "translation_id") == id
  }

  /** `?.name || ''` on the entry found; a name that is not text reads as "". */
  function NameText(name: Value): string
  {
    if name.Str? then name.s else ""
  }

  /** A stored entry for language `id` carrying the name `name`. */
  predicate OfferedName(cn: Value, id: Value, name: string)
  {
    ForLanguage(cn, id) && Prop(cn, "name") == Str(name)
  }

  /** `name` is what `find` from position `i` on yields: the name of the
      first entry for the language, or "" when no entry is for it. */
  predicate FirstEntryName(items: seq<Value>, id: Value, i: nat, name: string)
  {
    && ((forall j :: i <= j < |items| ==> !ForLanguage(items[j], id)) ==> name == "")
    && forall k ::
         (i <= k < |items| && ForLanguage(items[k], id) && (forall j :: i <= j < k ==> !ForLanguage(items[j], id)))
         ==> name == NameText(Prop(items[k], "name"))
  }

  function StoredNameFrom(items: seq<Value>, id: Value, i: nat): (r: string)
    requires i <= |items|
    ensures FirstEntryName(items, id, i, r)
    ensures r != "" ==> exists j :: i <= j < |items| && OfferedName(items[j], id, r)
    decreases |items| - i
  {
    if i == |items| then ""
    else if ForLanguage(items[i], id) then NameText(Prop(items[i], "name"))
    else StoredNameFrom(items, id, i + 1)
  }

  /** The effect that fills the form once the language structure `base`
      is known; with no languages yet only the errors are cleared. */
  function Init(isEdit: bool, item: Value, base: seq<NameEntry>, prev: Form): (r: Form)
    ensures r.errors == map[]
    ensures |base| == 0 ==> r.active == prev.active && r.names == prev.names
    ensures |base| > 0 && !(isEdit && Truthy(item)) ==> r.active && r.names == base
    ensures |base| > 0 && isEdit && Truthy(item) ==>
      && (r.active <==> Prop(item, "status") == Num(1))
      && |r.names| == |base|
      && forall i :: 0 <= i < |base| ==>
        r.names[i] == base[i].(name := StoredName(Prop(item, "cashier_names"), base[i].translationId))
  {
    if |base| == 0 then prev.(errors := map[])
    else if isEdit && Truthy(item) then
      Form(Prop(item, "status") == Num(1),
        seq(|base|, i requires 0 <= i < |base| =>
          base[i].(name := StoredName(Prop(item, "cashier_names"), base[i].translationId))),
        map[])
    else Form(true, base, map[])
  }

  /** The Reset button: active again, every name emptied back to the
      language structure, no errors, in add and edit mode alike. */
  function Reset(base: seq<NameEntry>): (r: Form)
    ensures r.active && r.names == base && r.errors == map[]
  {
    Form(true, base, map[])
  }

  /** Reset is the add-mode opening form, also when editing. */
  lemma ResetIsAddInit(isEdit: bool, item: Value, base: seq<NameEntry>, prev: Form)
    requires |base| > 0
    ensures Reset(base) == Init(false, item, base, prev)
  {
  }

  /** The fields shown: one text input per language, required only for
      English and showing that entry's name, then the status switch. */
  function FieldList(f: Form): (r: seq<Fields.Field>)
    ensures |r| == |f.names| + 1
    ensures forall i :: 0 <= i < |f.names| ==>
      && r[i].name == NameKey(f.names[i].translationId)
      && r[i].kind == Fields.TextInput
      && r[i].value == Str(f.names[i].name)
      && r[i].ownOnChange
      && (r[i].required <==> IsEnglish(f.names[i]))
    ensures r[|f.names|].kind == Fields.Switch && r[|f.names|].value == Bool(f.active)
  {
    seq(|f.names|, i requires 0 <= i < |f.names| =>
      var e := f.names[i];
      var lang := ToJsString(e.translationName);
      Fields.Field(NameKey(e.translationId), Fields.TextInput, Str(e.name), true, None,
        "Cashier Name (" + lang + ")", "Enter name in " + lang, "", "", "", IsEnglish(e)))
    + [Fields.Field("status", Fields.Switch, Bool(f.active), true, None,
        "Status", "", "Active", "Inactive", "", false)]
  }

  /** Each name input displays its own entry's name, whatever the shared
      form values hold. */
  lemma NameInputsShowEntries(f: Form, values: Object, i: nat)
    requires i < |f.names|
    ensures Fields.ResolveValue(FieldList(f)[i], values) == Str(f.names[i].name)
  {
    var field := FieldList(f)[i];
    assert field.name[0] == 'n';
  }

  /** Typing into one language's input: every entry of that language takes
      the value, the others and the order stay, and its error clears. */
  function OnNameChange(f: Form, id: Value, value: string): (r: Form)
    ensures r.active == f.active && |r.names| == |f.names|
    ensures forall i :: 0 <= i < |f.names| ==>
      (if f.names[i].translationId == id then r.names[i] == f.names[i].(name := value)
       else r.names[i] == f.names[i])
    ensures !Truthy(Get(r.errors, NameKey(id)))
    ensures forall k :: k != NameKey(id) ==> Get(r.errors, k) == Get(f.errors, k)
  {
    Form(f.active,
      seq(|f.names|, i requires 0 <= i < |f.names| =>
        if f.names[i].translationId == id then f.names[i].(name := value) else f.names[i]),
      ClearError(f.errors, NameKey(id)))
  }

  /** The first English entry, as `find` picks it. */
  function FirstEnglish(names: seq<NameEntry>): (r: Option<nat>)
    ensures r.Some? ==>
      && r.value < |names| && IsEnglish(names[r.value])
      && forall j :: 0 <= j < r.value ==> !IsEnglish(names[j])
    ensures r.None? ==> forall j :: 0 <= j < |names| ==> !IsEnglish(names[j])
  {
    if |names| == 0 then None
    else if IsEnglish(names[0]) then Some(0)
    else match FirstEnglish(names[1..])
      case None => None
      case Some(j) => Some(j + 1)
  }

  /** The three entries of one filled-in name at list position `i`. */
  function NameTriple(e: NameEntry, i: nat): seq<Entry>
  {
    [Entry(Indexed("cashier_names", i, "tranlation_id"), e.translationId),
     Entry(Indexed("cashier_names", i, "tranlation_name"), e.translationName),
     Entry(Indexed("cashier_names", i, "name"), Str(Trim(e.name)))]
  }

  /** What a filled-in name sends under each field of its position. */
  function TripleField(e: NameEntry, field: string): Option<Value>
  {
    if field == "tranlation_id" then Some(e.translationId)
    else if field == "tranlation_name" then Some(e.translationName)
    else if field == "name" then Some(Str(Trim(e.name)))
    else None
  }

  function OptList(o: Option<Value>): seq<Value>
  {
    if o.Some? then [o.value] else []
  }

  /** A triple carries each of its fields once, under its own position. */
  lemma TripleAt(e: NameEntry, at: nat, i: nat, field: string)
    ensures ValuesAt(NameTriple(e, at), Indexed("cashier_names", i, field)) ==
      if i == at then OptList(TripleField(e, field)) else []
  {
    var key := Indexed("cashier_names", i, field);
    var t := NameTriple(e, at);
    assert t == [t[0]] + ([t[1]] + [t[2]]);
    ValuesAtAppend([t[0]], [t[1]] + [t[2]], key);
    ValuesAtAppend([t[1]], [t[2]], key);
    ValuesAtSingle(t[0], key);
    ValuesAtSingle(t[1], key);
    ValuesAtSingle(t[2], key);
  }

  /** The name entries from list position `from` on. */
  function NameEntries(names: seq<NameEntry>, from: nat): seq<Entry>
    requires from <= |names|
    decreases |names| - from
  {
    if from == |names| then []
    else
      var head := if Trim(names[from].name) != "" then NameTriple(names[from], from) else [];
      head + NameEntries(names, from + 1)
  }

  /** What the name entries carry: under each list position at or after
      `from`, the language and trimmed name exactly when the name is not
      blank; nothing for blank names. */
  lemma {:induction false} NameEntriesExact(names: seq<NameEntry>, from: nat, i: nat, field: string)
    requires from <= |names|
    ensures ValuesAt(NameEntries(names, from), Indexed("cashier_names", i, field)) ==
      if from <= i < |names| && Trim(names[i].name) != "" then OptList(TripleField(names[i], field)) else []
    decreases |names| - from
  {
    var key := Indexed("cashier_names", i, field);
    if from < |names| {
      NameEntriesExact(names, from + 1, i, field);
      var rest := NameEntries(names, from + 1);
      if Trim(names[from].name) != "" {
        var head := NameTriple(names[from], from);
        assert NameEntries(names, from) == head + rest;
        ValuesAtAppend(head, rest, key);
        TripleAt(names[from], from, i, field);
      } else {
        assert NameEntries(names, from) == rest;
      }
    }
  }

  const GeneralError := "Cannot determine the Branch ID for submission. Please refresh or log in again."
  const EnglishError := "Cashier name (English) is required."

  /** Submit. Without a branch id only the general error is set; a blank
      English name (when there is an English entry) blocks with that
      input's error; otherwise the FormData body is branch id, 1/0 status
      and the filled-in names. */
  function Submit(f: Form, branchId: Value): (r: Submission<seq<Entry>>)
    ensures !Truthy(branchId) ==> r == Blocked(map["general" := GeneralError])
    ensures Truthy(branchId) ==>
      (r.Blocked? <==> FirstEnglish(f.names).Some? && Trim(f.names[FirstEnglish(f.names).value].name) == "")
    ensures Truthy(branchId) && r.Blocked? ==>
      r.errors == map[NameKey(f.names[FirstEnglish(f.names).value].translationId) := EnglishError]
    ensures r.Send? ==>
      && |r.payload| >= 2
      && r.payload[0] == Entry(Plain("branch_id"), branchId)
      && r.payload[1] == Entry(Plain("status"), Flag(f.active))
      && r.payload[2..] == NameEntries(f.names, 0)
  {
    if !Truthy(branchId) then Blocked(map["general" := GeneralError])
    else match FirstEnglish(f.names)
      case Some(j) =>
        if Trim(f.names[j].name) == "" then Blocked(map[NameKey(f.names[j].translationId) := EnglishError])
        else Send([Entry(Plain("branch_id"), branchId), Entry(Plain("status"), Flag(f.active))] + NameEntries(f.names, 0))
      case None =>
        Send([Entry(Plain("branch_id"), branchId), Entry(Plain("status"), Flag(f.active))] + NameEntries(f.names, 0))
  }

  /** With no English entry no name is required: a known branch always
      submits, even with every name blank. */
  lemma NoEnglishNoRequiredName(f: Form, branchId: Value)
    requires Truthy(branchId)
    requires forall j :: 0 <= j < |f.names| ==> !IsEnglish(f.names[j])
    ensures Submit(f, branchId).Send?
  {
  }

  /** A sent body holds, under each list position, the trimmed name of
      every filled-in language and nothing for the blank ones. */
  lemma SubmittedNames(f: Form, branchId: Value, i: nat)
    requires Submit(f, branchId).Send?
    ensures var body := Submit(f, branchId).payload;
      var filled := i < |f.names| && Trim(f.names[i].name) != "";
      && ValuesAt(body, Indexed("cashier_names", i, "name")) ==
        (if filled then [Str(Trim(f.names[i].name))] else [])
      && ValuesAt(body, Indexed("cashier_names", i, "tranlation_id")) ==
        (if filled then [f.names[i].translationId] else [])
  {
    var body := Submit(f, branchId).payload;
    var head := body[..2];
    assert body == head + NameEntries(f.names, 0);
    NameEntriesExact(f.names, 0, i, "name");
    NameEntriesExact(f.names, 0, i, "tranlation_id");
    ValuesAtAppend(head, NameEntries(f.names, 0), Indexed("cashier_names", i, "name"));
    ValuesAtAppend(head, NameEntries(f.names, 0), Indexed("cashier_names", i, "tranlation_id"));
    assert head[1..][1..] == [];
  }
}
