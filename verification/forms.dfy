/** What every add/edit page shares: form values and errors as plain
    objects, the one-key change handler, the outcome of a submit, and
    FormData as an ordered list of key/value entries. */
module Forms {
  import opened Js

  /** A submit either stops with the validation errors or sends a payload. */
  datatype Submission<P> = Blocked(errors: map<string, string>) | Send(payload: P)

  /** A FormData key: a plain name, or `list[index][field]`. */
  datatype Key = Plain(name: string) | Indexed(list: string, index: nat, field: string)

  /** One `formData.append(key, value)`. */
  datatype Entry = Entry(key: Key, val: Value)

  /** `{ ...prev, [name]: value }` */
  function Set(o: Object, name: string, v: Value): (r: Object)
    ensures Get(r, name) == v
    ensures forall k :: k != name ==> Get(r, k) == Get(o, k)
    ensures r.Keys == o.Keys + {name}
  {
    o[name := v]
  }

  /** `setErrors(prev => ({ ...prev, [name]: null }))`: the key's error no
      longer shows, and every other error stays. */
  function ClearError(errors: Object, name: string): (r: Object)
    ensures !Truthy(Get(r, name))
    ensures forall k :: k != name ==> Get(r, k) == Get(errors, k)
  {
    Set(errors, name, Null)
  }

  /** A boolean flag as the API wants it: 1 or 0. */
  function Flag(b: bool): (r: Value)
    ensures r == Num(1) || r == Num(0)
    ensures r == Num(1) <==> b
  {
    Num(if b then 1 else 0)
  }

  /** `status === 'Active' ? 1 : 0` */
  function ActiveFlag(status: Value): (r: Value)
    ensures r == Num(1) <==> status == Str("Active")
    ensures r == Num(0) <==> status != Str("Active")
  {
    Flag(status == Str("Active"))
  }

  /** The status text a list row's raw status stands for. */
  function StatusText(raw: Value): (r: Value)
    ensures r == Str("Active") <==> Truthy(raw)
    ensures r == Str("Active") || r == Str("Inactive")
  {
    Str(if Truthy(raw) then "Active" else "Inactive")
  }

  /** Formik's submit: the page's handler runs only when the schema
      rejects no key; otherwise each rejected key gets a message and
      nothing is sent. */
  function FormikSubmit<P>(rejected: set<string>, body: P): (r: Submission<P>)
    ensures r.Blocked? <==> rejected != {}
    ensures r.Blocked? ==> r.errors.Keys == rejected
    ensures r.Send? ==> r.payload == body
  {
    if rejected != {} then Blocked(map k | k in rejected :: "Invalid " + k) else Send(body)
  }

  /** `formData.getAll(key)`: the values appended under `key`, in order. */
  function ValuesAt(entries: seq<Entry>, key: Key): (r: seq<Value>)
    ensures |r| <= |entries|
  {
    if |entries| == 0 then []
    else (if entries[0].key == key then [entries[0].val] else []) + ValuesAt(entries[1..], key)
  }

  /** One entry carries its value under its own key and nothing else. */
  lemma ValuesAtSingle(e: Entry, key: Key)
    ensures ValuesAt([e], key) == if e.key == key then [e.val] else []
  {
    assert [e][1..] == [];
  }

  /** Appending two batches of entries appends their values per key. */
  lemma {:induction false} ValuesAtAppend(a: seq<Entry>, b: seq<Entry>, key: Key)
    ensures ValuesAt(a + b, key) == ValuesAt(a, key) + ValuesAt(b, key)
  {
    if |a| > 0 {
      assert (a + b)[1..] == a[1..] + b;
      ValuesAtAppend(a[1..], b, key);
    } else {
      assert a + b == b;
    }
  }

  /** No entry under `key`, no value. */
  lemma {:induction false} ValuesAtMissing(es: seq<Entry>, key: Key)
    requires forall i :: 0 <= i < |es| ==> es[i].key != key
    ensures ValuesAt(es, key) == []
  {
    if |es| > 0 {
      ValuesAtMissing(es[1..], key);
    }
  }

  /** `"1"` or `"0"`, for servers that want text. */
  function BoolText(b: bool): (r: Value)
    ensures r == Str("1") || r == Str("0")
    ensures r == Str("1") <==> b
  {
    Str(if b then "1" else "0")
  }

  /** One entry per flag key, in order, each the key's truthiness as 1/0,
      or as "1"/"0" when `asText`. */
  function FlagEntries(values: Object, keys: seq<string>, asText: bool): (r: seq<Entry>)
    ensures |r| == |keys|
  {
    if |keys| == 0 then []
    else
      var b := Truthy(Get(values, keys[0]));
      [Entry(Plain(keys[0]), if asText then BoolText(b) else Flag(b))] + FlagEntries(values, keys[1..], asText)
  }

  /** Each listed flag is sent exactly once, as its truthiness; nothing
      else is sent. */
  lemma {:induction false} FlagEntriesExact(values: Object, keys: seq<string>, asText: bool, k: string)
    requires forall i, j :: 0 <= i < j < |keys| ==> keys[i] != keys[j]
    ensures ValuesAt(FlagEntries(values, keys, asText), Plain(k)) ==
      if k in keys then [if asText then BoolText(Truthy(Get(values, k))) else Flag(Truthy(Get(values, k)))]
      else []
  {
    if |keys| > 0 {
      var b := Truthy(Get(values, keys[0]));
      var head := [Entry(Plain(keys[0]), if asText then BoolText(b) else Flag(b))];
      var rest := FlagEntries(values, keys[1..], asText);
      assert FlagEntries(values, keys, asText) == head + rest;
      assert forall i, j :: 0 <= i < j < |keys[1..]| ==> keys[1..][i] != keys[1..][j] by {
        forall i, j | 0 <= i < j < |keys[1..]| ensures keys[1..][i] != keys[1..][j] {
          assert keys[1..][i] == keys[i + 1] && keys[1..][j] == keys[j + 1];
        }
      }
      FlagEntriesExact(values, keys[1..], asText, k);
      ValuesAtAppend(head, rest, Plain(k));
      ValuesAtSingle(head[0], Plain(k));
      if k == keys[0] {
        assert k !in keys[1..] by {
          forall j | 0 <= j < |keys[1..]| ensures keys[1..][j] != k {
            assert keys[1..][j] == keys[j + 1];
          }
        }
      } else {
        assert k in keys <==> k in keys[1..] by {
          assert keys == [keys[0]] + keys[1..];
        }
      }
    }
  }

  /** The image entry of an upload form: only a newly chosen file is sent
      (`image && typeof image !== 'string'`), never a stored link. */
  function ImageEntries(name: string, image: Value): (r: seq<Entry>)
    ensures |r| <= 1
    ensures |r| == 1 <==> Truthy(image) && !image.Str?
    ensures |r| == 1 ==> r[0] == Entry(Plain(name), image)
  {
    if Truthy(image) && !image.Str? then [Entry(Plain(name), image)] else []
  }

  /** `z.string().min(6).optional().or(z.literal(''))`: absent, empty, or
      at least six characters. */
  predicate PasswordOk(v: Value)
  {
    v.Undefined? || (v.Str? && (v.s == "" || |v.s| >= 6))
  }

  /** The password entry: sent only when something was typed. */
  function PasswordEntries(password: Value): (r: seq<Entry>)
    ensures |r| <= 1
    ensures |r| == 1 <==> Truthy(password)
    ensures |r| == 1 ==> r[0] == Entry(Plain("password"), password)
  {
    if Truthy(password) then [Entry(Plain("password"), password)] else []
  }

  /** What the image entries carry under a key. */
  lemma ImageAt(name: string, image: Value, key: Key)
    ensures ValuesAt(ImageEntries(name, image), key) ==
      if key == Plain(name) && Truthy(image) && !image.Str? then [image] else []
  {
    var es := ImageEntries(name, image);
    if |es| == 1 { ValuesAtSingle(es[0], key); }
  }

  /** What the password entries carry under a key. */
  lemma PasswordAt(password: Value, key: Key)
    ensures ValuesAt(PasswordEntries(password), key) ==
      if key == Plain("password") && Truthy(password) then [password] else []
  {
    var es := PasswordEntries(password);
    if |es| == 1 { ValuesAtSingle(es[0], key); }
  }

  predicate Nullish(v: Value)
  {
    v.Undefined? || v.Null?
  }

  /** `list?.map(x => x.id) || []`: a missing list gives []; anything else
      that is not an array, or an entry that is null or undefined, throws
      (None); otherwise the entries' ids in order. */
  function IdsOf(list: Value): (r: Option<Value>)
    ensures Nullish(list) ==> r == Some(Arr([]))
    ensures r.None? <==> !Nullish(list) && (!list.Arr? || exists i :: 0 <= i < |list.items| && Nullish(list.items[i]))
    ensures r.Some? && list.Arr? ==>
      (&& r.value.Arr? && |r.value.items| == |list.items|
       && forall i :: 0 <= i < |list.items| ==> r.value.items[i] == Prop(list.items[i], "id"))
    ensures r.Some? ==> Truthy(r.value)
  {
    if Nullish(list) then Some(Arr([]))
    else if !list.Arr? then None
    else if exists i :: 0 <= i < |list.items| && Nullish(list.items[i]) then None
    else Some(Arr(seq(|list.items|, i requires 0 <= i < |list.items| => Prop(list.items[i], "id"))))
  }
}
