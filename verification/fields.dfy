/** The generic field renderer shared by every add/edit page: which field
    descriptors are shown and in what order, which value each control
    displays, when an error message appears, what a switch shows, and
    where a user's change is sent. */
module Fields {
  import opened Js
  import Seqs

  /** The control a descriptor asks for (`field.type`). Any other tag
      renders the label but no control. */
  datatype Kind =
    | TextInput
    | TimeInput
    | TextArea
    | FileInput
    | MultiSelect
    | Select
    | Switch
    | MapPicker
    | Other(tag: string)

  /** A field descriptor. Absent optional strings are "", an absent `value`
      is `Undefined`, and `showIf` is the descriptor's visibility callback
      when it has one. */
  datatype Field = Field(
    name: string,
    kind: Kind,
    value: Value,
    ownOnChange: bool,
    showIf: Option<Object -> bool>,
    heading: string,
    placeholder: string,
    activeLabel: string,
    inactiveLabel: string,
    returnType: string,
    required: bool)

  /** A descriptor with only a name, a control, a placeholder and the
      required mark, as most pages write them. */
  function Plain(name: string, kind: Kind, placeholder: string, required: bool): (f: Field)
    ensures f.name == name && f.kind == kind && f.required == required
    ensures f.value == Undefined && !f.ownOnChange && f.showIf.None?
  {
    Field(name, kind, Undefined, false, None, "", placeholder, "", "", "", required)
  }

  /** `field.showIf && !field.showIf(values)` omits the field. */
  predicate Visible(f: Field, values: Object)
  {
    f.showIf.None? || f.showIf.value(values)
  }

  function Range(n: nat): (r: seq<nat>)
    ensures |r| == n && forall i :: 0 <= i < n ==> r[i] == i
  {
    seq(n, i requires 0 <= i < n => i)
  }

  /** The field positions rendered in one of the two groups: the map
      pickers (`isMap`) or every other field, each group filtered by
      `showIf`. */
  function Group(fields: seq<Field>, values: Object, isMap: bool): seq<nat>
  {
    Seqs.Filter(Range(|fields|), (i: nat) => InGroup(fields, values, isMap, i))
  }

  predicate InGroup(fields: seq<Field>, values: Object, isMap: bool, i: nat)
  {
    i < |fields| && fields[i].kind.MapPicker? == isMap && Visible(fields[i], values)
  }

  /** The positions of the fields in the order they appear on screen:
      non-map fields in the grid, then the map pickers below it. */
  function RenderOrder(fields: seq<Field>, values: Object): seq<nat>
  {
    Group(fields, values, false) + Group(fields, values, true)
  }

  predicate Increasing(xs: seq<nat>)
  {
    forall k, l :: 0 <= k < l < |xs| ==> xs[k] < xs[l]
  }

  /** A group holds, in source order and once each, exactly the visible
      fields of its kind. */
  lemma GroupExact(fields: seq<Field>, values: Object, isMap: bool)
    ensures Increasing(Group(fields, values, isMap))
    ensures forall i :: i in Group(fields, values, isMap) <==>
      0 <= i < |fields| && fields[i].kind.MapPicker? == isMap && Visible(fields[i], values)
  {
    var n := |fields|;
    var keep := (i: nat) => InGroup(fields, values, isMap, i);
    var g := Group(fields, values, isMap);
    var idx := Seqs.FilterPicksExactly(Range(n), keep);
    forall i | 0 <= i < n && keep(i)
      ensures i in g
    {
      assert Range(n)[i] == i;
      var k :| 0 <= k < |idx| && idx[k] == i;
      assert g[k] == i;
    }
  }

  /** Every visible non-map field comes before every map picker, both
      groups keep source order, no field is shown twice and a field whose
      `showIf` is false is not shown at all. */
  lemma RenderOrderLayout(fields: seq<Field>, values: Object)
    ensures var o := RenderOrder(fields, values);
      && (forall k :: 0 <= k < |o| ==> o[k] < |fields| && Visible(fields[o[k]], values))
      && (forall k, l :: 0 <= k < l < |o| && fields[o[k]].kind.MapPicker? == fields[o[l]].kind.MapPicker? ==> o[k] < o[l])
      && (forall k, l :: 0 <= k < l < |o| ==> !(fields[o[k]].kind.MapPicker? && !fields[o[l]].kind.MapPicker?))
      && (forall i :: 0 <= i < |fields| ==> (i in o <==> Visible(fields[i], values)))
  {
    var a := Group(fields, values, false);
    var b := Group(fields, values, true);
    GroupExact(fields, values, false);
    GroupExact(fields, values, true);
    var o := a + b;
    assert forall k :: 0 <= k < |a| ==> o[k] == a[k] && a[k] in a;
    assert forall k :: |a| <= k < |o| ==> o[k] == b[k - |a|] && b[k - |a|] in b;
  }

  /** The value a control displays. A `durations_<id>` field reads
      `values.planDurations[id]` (default []); otherwise a defined
      `field.value` wins over `values[name]`, which falls back to "". Map
      pickers always read `values[name] || ""`. */
  function ResolveValue(f: Field, values: Object): (r: Value)
    ensures r != Undefined
    ensures !f.kind.MapPicker? && !StartsWith(f.name, "durations_") && f.value != Undefined ==> r == f.value
    ensures (f.kind.MapPicker? || (!StartsWith(f.name, "durations_") && f.value == Undefined)) ==>
      (Truthy(Get(values, f.name)) ==> r == Get(values, f.name))
      && (!Truthy(Get(values, f.name)) ==> r == Str(""))
    ensures !f.kind.MapPicker? && StartsWith(f.name, "durations_") ==>
      var d := Prop(Get(values, "planDurations"), f.name[10..]);
      r == (if Truthy(d) then d else Arr([]))
  {
    if f.kind.MapPicker? then Or(Get(values, f.name), Str(""))
    else if StartsWith(f.name, "durations_") then
      Or(Prop(Get(values, "planDurations"), f.name[|"durations_"|..]), Arr([]))
    else if f.value != Undefined then f.value
    else Or(Get(values, f.name), Str(""))
  }

  /** The error message shown under a field; a falsy result shows nothing.
      Grid fields only show it once the field was touched, map pickers
      always do. */
  function ErrorMessage(f: Field, errors: Object, touched: Object): (r: Value)
    ensures Truthy(r) <==>
      Truthy(Get(errors, f.name)) && (f.kind.MapPicker? || Truthy(Get(touched, f.name)))
    ensures Truthy(r) ==> r == Get(errors, f.name)
  {
    if f.kind.MapPicker? then Get(errors, f.name)
    else if Truthy(Get(touched, f.name)) then Get(errors, f.name)
    else Null
  }

  /** Before the user touches anything, only map pickers can show errors. */
  lemma UntouchedShowsNoGridErrors(fields: seq<Field>, values: Object, errors: Object)
    ensures forall i :: i in RenderOrder(fields, values) && i < |fields| && !fields[i].kind.MapPicker? ==>
      !Truthy(ErrorMessage(fields[i], errors, map[]))
  {
  }

  /** The text above a control: `label || placeholder || name`. */
  function Heading(f: Field): (r: string)
    ensures r == f.heading || r == f.placeholder || r == f.name
    ensures r == "" <==> f.heading == "" && f.placeholder == "" && f.name == ""
  {
    if f.heading != "" then f.heading
    else if f.placeholder != "" then f.placeholder
    else f.name
  }

  /** Whether a switch shows as on: a boolean is taken as is, anything
      else is on only when it is the number 1. */
  predicate SwitchChecked(v: Value)
  {
    if v.Bool? then v.b else v == Num(1)
  }

  lemma SwitchCheckedExactly(v: Value)
    ensures SwitchChecked(v) <==> v == Bool(true) || v == Num(1)
    ensures !SwitchChecked(Str("Active"))
  {
  }

  /** The text next to a switch. */
  function SwitchLabel(f: Field, checked: bool): (r: string)
    ensures checked ==> r == (if f.activeLabel != "" then f.activeLabel else "Active")
    ensures !checked ==> r == (if f.inactiveLabel != "" then f.inactiveLabel else "Inactive")
    ensures r != ""
  {
    if checked then (if f.activeLabel != "" then f.activeLabel else "Active")
    else if f.inactiveLabel != "" then f.inactiveLabel else "Inactive"
  }

  /** What a file input reports for the browser's selected-file list: the
      first entry when it is a real file, null otherwise. */
  function FileEmission(files: seq<Value>): (r: Value)
    ensures r == Null || (r.File? && |files| > 0 && r == files[0])
    ensures r == Null <==> |files| == 0 || !files[0].File?
  {
    if |files| > 0 && files[0].File? then files[0] else Null
  }

  /** A user action on one control. */
  datatype UserInput =
    | Typed(text: string)
    | FilesPicked(files: seq<Value>)
    | Picked(choice: Value)
    | Toggled(checked: bool)
    | Located(place: Value)

  /** The value a control of this kind produces for the action, or None
      when the control cannot produce that action. */
  function Produced(k: Kind, input: UserInput): (r: Option<Value>)
    ensures k.Other? ==> r.None?
    ensures input.Typed? ==>
      (r.Some? <==> k.TextInput? || k.TimeInput? || k.TextArea?) && (r.Some? ==> r.value == Str(input.text))
    ensures input.FilesPicked? ==>
      (r.Some? <==> k.FileInput?) && (r.Some? ==> r.value == FileEmission(input.files))
    ensures input.Picked? ==>
      (r.Some? <==> k.Select? || k.MultiSelect?) && (r.Some? ==> r.value == input.choice)
    ensures input.Toggled? ==>
      (r.Some? <==> k.Switch?) && (r.Some? ==> r.value == Bool(input.checked))
    ensures input.Located? ==>
      (r.Some? <==> k.MapPicker?) && (r.Some? ==> r.value == input.place)
    ensures k.Switch? && r.Some? ==> r.value.Bool?
    ensures k.FileInput? && r.Some? ==> r.value == Null || r.value.File?
    ensures (k.TextInput? || k.TimeInput? || k.TextArea?) && r.Some? ==> r.value.Str?
  {
    match input
    case Typed(text) =>
      if k.TextInput? || k.TimeInput? || k.TextArea? then Some(Str(text)) else None
    case FilesPicked(files) =>
      if k.FileInput? then Some(FileEmission(files)) else None
    case Picked(choice) =>
      if k.Select? || k.MultiSelect? then Some(choice) else None
    case Toggled(checked) =>
      if k.Switch? then Some(Bool(checked)) else None
    case Located(place) =>
      if k.MapPicker? then Some(place) else None
  }

  /** Where a change goes: to the descriptor's own handler with the bare
      value, or else to the page's handler as (language, name, value). */
  datatype Emit =
    | LocalChange(v: Value)
    | SharedChange(lang: string, name: string, v: Value)
    | NoChange

  function Route(f: Field, lang: string, parentOnChange: bool, input: UserInput): (r: Emit)
    ensures f.ownOnChange && Produced(f.kind, input).Some? ==>
      r == LocalChange(Produced(f.kind, input).value)
    ensures !f.ownOnChange && parentOnChange && Produced(f.kind, input).Some? ==>
      r == SharedChange(lang, f.name, Produced(f.kind, input).value)
    ensures Produced(f.kind, input).None? || (!f.ownOnChange && !parentOnChange) ==> r == NoChange
  {
    match Produced(f.kind, input)
    case None => NoChange
    case Some(v) =>
      if f.ownOnChange then LocalChange(v)
      else if parentOnChange then SharedChange(lang, f.name, v)
      else NoChange
  }

  /** What is typed into a text, time or text-area field reaches its
      handler unchanged, and so does a choice in a select. */
  lemma RouteForwardsInput(f: Field, lang: string, text: string, choice: Value)
    ensures f.kind.TextInput? || f.kind.TimeInput? || f.kind.TextArea? ==>
      Route(f, lang, true, Typed(text)) ==
        if f.ownOnChange then LocalChange(Str(text)) else SharedChange(lang, f.name, Str(text))
    ensures f.kind.Select? || f.kind.MultiSelect? ==>
      Route(f, lang, true, Picked(choice)) ==
        if f.ownOnChange then LocalChange(choice) else SharedChange(lang, f.name, choice)
  {
  }

  /** A switch always writes a boolean back, whatever `returnType` says. */
  lemma SwitchIgnoresReturnType(f: Field, lang: string, parentOnChange: bool, checked: bool)
    requires f.kind.Switch?
    ensures Route(f, lang, parentOnChange, Toggled(checked)) ==
      Route(f.(returnType := ""), lang, parentOnChange, Toggled(checked))
    ensures !f.ownOnChange && parentOnChange ==>
      Route(f, lang, parentOnChange, Toggled(checked)) == SharedChange(lang, f.name, Bool(checked))
  {
  }

  /** The switch as the pages that set `returnType: 'string'` expect it:
      such a switch shows as on exactly for the text "Active", and every
      other switch keeps the rule above. */
  predicate FixedSwitchChecked(f: Field, v: Value)
  {
    if f.returnType == "string" then v == Str("Active") else SwitchChecked(v)
  }

  /** What the expected switch writes back: "Active"/"Inactive" for a
      string switch, the boolean otherwise. */
  function FixedSwitchValue(f: Field, checked: bool): (r: Value)
    ensures f.returnType == "string" ==> r.Str? && (r == Str("Active") <==> checked)
    ensures f.returnType != "string" ==> r == Bool(checked)
  {
    if f.returnType == "string" then Str(if checked then "Active" else "Inactive") else Bool(checked)
  }

  /** The status switch the store pages declare: a string switch
      captioned "Active"/"Inactive". */
  const StringStatusSwitch: Field :=
    Field("status", Switch, Undefined, false, None, "", "Status", "Active", "Inactive", "string", false)

  /** A toggle of that switch, written into the form values the way the
      pages expect: the status becomes the text, nothing else changes,
      and the switch then shows the toggled state. */
  function ToggleStringStatus(values: Object, checked: bool): (r: Object)
    ensures Get(r, "status") == Str(if checked then "Active" else "Inactive")
    ensures forall k :: k != "status" ==> Get(r, k) == Get(values, k)
    ensures FixedSwitchChecked(StringStatusSwitch, Get(r, "status")) == checked
  {
    values["status" := FixedSwitchValue(StringStatusSwitch, checked)]
  }

  /** Toggling the expected switch and reading it back gives the toggled
      state; a switch that is not a string switch behaves as written. */
  lemma FixedSwitchRoundTrip(f: Field, checked: bool)
    ensures FixedSwitchChecked(f, FixedSwitchValue(f, checked)) == checked
    ensures f.returnType != "string" ==>
      && Produced(f.kind, Toggled(checked)) == (if f.kind.Switch? then Some(FixedSwitchValue(f, checked)) else None)
      && forall v :: FixedSwitchChecked(f, v) == SwitchChecked(v)
  {
  }
}
