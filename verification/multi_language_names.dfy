/** The shared hook that turns the translation list from the API into the
    starting structure of a multi-language name form: one empty name per
    language, falling back to English and Arabic. */
module MultiLanguageNames {
  import opened Js

  /** One language's name input. */
  datatype NameEntry = NameEntry(translationId: Value, translationName: Value, name: string)

  /** The built-in languages used when the API gives none. */
  const Defaults: seq<NameEntry> := [NameEntry(Num(1), Str("English"), ""), NameEntry(Num(2), Str("Arabic"), "")]

  /** The API gave a usable list: a non-empty array. */
  predicate UsableList(translations: Value)
  {
    translations.Arr? && |translations.items| > 0
  }

  /** `initialNameStructure` for the response body `data` (undefined
      while nothing has arrived). */
  function InitialNameStructure(data: Value): (r: seq<NameEntry>)
    ensures |r| > 0
    ensures forall i :: 0 <= i < |r| ==> r[i].name == ""
    ensures UsableList(Prop(data, "translation")) ==>
      var t := Prop(data, "translation").items;
      && |r| == |t|
      && forall i :: 0 <= i < |t| ==>
        r[i].translationId == Prop(t[i], "id") && r[i].translationName == Prop(t[i], "name")
    ensures !UsableList(Prop(data, "translation")) ==> r == Defaults
  {
    var translations := Prop(data, "translation");
    if UsableList(translations) then
      seq(|translations.items|, i requires 0 <= i < |translations.items| =>
        NameEntry(Prop(translations.items[i], "id"), Prop(translations.items[i], "name"), ""))
    else Defaults
  }

  /** A failed, empty or malformed answer gives the same structure as no
      answer yet, and that structure has exactly the two built-in
      languages. */
  lemma FallbackLikeLoading(data: Value)
    requires !UsableList(Prop(data, "translation"))
    ensures InitialNameStructure(data) == InitialNameStructure(Undefined)
    ensures |InitialNameStructure(data)| == 2
    ensures InitialNameStructure(data)[0].translationName == Str("English")
    ensures InitialNameStructure(data)[1].translationName == Str("Arabic")
  {
  }
}
