/** The admin's store and store-keeper lists: each server record becomes a
    display row, a successful status switch rewrites the matching rows in
    place, and a successful delete drops the selected record's rows. The
    two pages share the update and delete logic. */
module LocalLists {
  import opened Js
  import opened Forms
  import Seqs

  /** A store record from the server as the store list shows it. */
  function StockRow(u: Object): (r: Object)
    ensures Get(r, "id") == Get(u, "id")
    ensures Get(r, "name") == Or(Get(u, "name"), Str("—"))
    ensures Get(r, "status") == StatusText(Get(u, "status"))
    ensures Get(r, "rawStatus") == Get(u, "status")
    ensures Get(r, "location") == Get(u, "location")
    ensures Get(r, "branches") == Or(Get(u, "branches"), Arr([]))
  {
    map["id" := Get(u, "id"),
        "name" := Or(Get(u, "name"), Str("—")),
        "status" := StatusText(Get(u, "status")),
        "rawStatus" := Get(u, "status"),
        "location" := Get(u, "location"),
        "branches" := Or(Get(u, "branches"), Arr([]))]
  }

  /** A store-keeper record from the server as the list shows it. */
  function StockManRow(u: Object): (r: Object)
    ensures Get(r, "id") == Get(u, "id")
    ensures Get(r, "user_name") == Or(Get(u, "user_name"), Str("—"))
    ensures Get(r, "phone") == Or(Get(u, "phone"), Str("—"))
    ensures Get(r, "store_name") == Or(Prop(Get(u, "store"), "name"), Str("—"))
    ensures Get(r, "status") == StatusText(Get(u, "status"))
    ensures Get(r, "rawStatus") == Get(u, "status")
    ensures Get(r, "image") == Or(Get(u, "image"), Null)
  {
    map["id" := Get(u, "id"),
        "user_name" := Or(Get(u, "user_name"), Str("—")),
        "phone" := Or(Get(u, "phone"), Str("—")),
        "store_name" := Or(Prop(Get(u, "store"), "name"), Str("—")),
        "status" := StatusText(Get(u, "status")),
        "rawStatus" := Get(u, "status"),
        "image" := Or(Get(u, "image"), Null)]
  }

  /** One row after its status switch was set to `on`. */
  function SwitchRow(row: Object, on: bool): (r: Object)
    ensures Get(r, "status") == Str(if on then "Active" else "Inactive")
    ensures Get(r, "rawStatus") == Bool(on)
    ensures forall k :: k != "status" && k != "rawStatus" ==> Get(r, k) == Get(row, k)
  {
    row["status" := StatusText(Bool(on))]["rawStatus" := Bool(on)]
  }

  /** The list after the status request for `id` answered `success`:
      rows whose id is `id` take the new status, every other row and the
      length stay; a failed request changes nothing. */
  function UpdateStatus(rows: seq<Object>, id: Value, on: bool, success: bool): (r: seq<Object>)
    ensures |r| == |rows|
    ensures !success ==> r == rows
    ensures forall i :: 0 <= i < |rows| && Get(rows[i], "id") != id ==> r[i] == rows[i]
    ensures success ==> forall i :: 0 <= i < |rows| && Get(rows[i], "id") == id ==> r[i] == SwitchRow(rows[i], on)
  {
    if !success then rows
    else
      seq(|rows|, i requires 0 <= i < |rows| =>
        if Get(rows[i], "id") == id then SwitchRow(rows[i], on) else rows[i])
  }

  /** Two objects that read the same under every key are equal. */
  lemma SameReads(a: Object, b: Object)
    requires a.Keys == b.Keys
    requires forall k :: Get(a, k) == Get(b, k)
    ensures a == b
  {
    assert forall k :: k in a ==> a[k] == Get(a, k);
  }

  /** Switching a store row in place shows what re-reading the record
      with the new status would show. */
  lemma SwitchAgreesWithRefetch(u: Object, on: bool)
    ensures SwitchRow(StockRow(u), on) == StockRow(u["status" := Bool(on)])
  {
    var a := SwitchRow(StockRow(u), on);
    var b := StockRow(u["status" := Bool(on)]);
    assert a.Keys == b.Keys;
    SameReads(a, b);
  }

  /** The same for a store-keeper row. */
  lemma SwitchAgreesWithRefetchMan(u: Object, on: bool)
    ensures SwitchRow(StockManRow(u), on) == StockManRow(u["status" := Bool(on)])
  {
    var a := SwitchRow(StockManRow(u), on);
    var b := StockManRow(u["status" := Bool(on)]);
    assert a.Keys == b.Keys;
    SameReads(a, b);
  }

  /** The page's list and its delete dialog. */
  datatype Page = Page(rows: seq<Object>, deleteOpen: bool, selected: Option<Object>)

  /** The rows a delete of the record with id `id` keeps. */
  function Without(rows: seq<Object>, id: Value): (r: seq<Object>)
    ensures |r| <= |rows|
    ensures forall i :: 0 <= i < |r| ==> Get(r[i], "id") != id && r[i] in rows
    ensures forall i :: 0 <= i < |rows| && Get(rows[i], "id") != id ==> rows[i] in r
  {
    Seqs.Filter(rows, (row: Object) => Get(row, "id") != id)
  }

  /** Confirming the delete dialog once the delete request answered
      `success`: with a selection and a success the selected record's
      rows go, the dialog closes and the selection clears; otherwise
      nothing changes. */
  function ConfirmDelete(p: Page, success: bool): (r: Page)
    ensures p.selected.None? || !success ==> r == p
    ensures p.selected.Some? && success ==>
      && r.rows == Without(p.rows, Get(p.selected.value, "id"))
      && !r.deleteOpen && r.selected.None?
  {
    match p.selected
    case None => p
    case Some(row) =>
      if success then Page(Without(p.rows, Get(row, "id")), false, None) else p
  }

  /** The kept rows are, in their original order, exactly the rows whose
      id differs from the deleted one. */
  lemma WithoutExact(rows: seq<Object>, id: Value) returns (idx: seq<nat>)
    ensures Seqs.Picks(Without(rows, id), rows, idx)
    ensures forall i :: 0 <= i < |rows| ==> (i in idx <==> Get(rows[i], "id") != id)
  {
    idx := Seqs.FilterPicksExactly(rows, (row: Object) => Get(row, "id") != id);
  }

  /** Removing a record's rows a second time removes nothing more. */
  lemma {:induction false} WithoutIdempotent(rows: seq<Object>, id: Value)
    ensures Without(Without(rows, id), id) == Without(rows, id)
  {
    if |rows| > 0 {
      WithoutIdempotent(rows[1..], id);
      assert rows == [rows[0]] + rows[1..];
      if Get(rows[0], "id") != id {
        assert Without(rows, id) == [rows[0]] + Without(rows[1..], id);
        assert Without(rows, id)[1..] == Without(rows[1..], id);
      }
    }
  }
}
