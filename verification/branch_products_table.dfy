/** The branch's products table: quantity and status edits on one row, the
    active/inactive switch that commits only after the server agrees, the
    rule that an inactive product's quantity cannot be edited, and the
    barcode image's address. */
module BranchProductsTable {
  import opened Wrappers
  import opened JsValues
  import opened Rows
  import opened Http

  /** A branch product. `quantity` is whatever the quantity input last held:
      the server's number, or the string typed into the dialog. */
  datatype BranchProductFields = BranchProductFields(
    productName: string,
    productBarcode: string,
    quantity: Scalar,
    status: string)

  type BranchProduct = Row<BranchProductFields>

  const Active := "active"
  const Inactive := "inactive"

  const MediaBase := "https://backend-house-of-tea-production.up.railway.app/media"

  /** `updateProductQuantity(id, newQuantity)`. */
  function UpdateProductQuantity(data: seq<BranchProduct>, id: int, q: Scalar): (r: seq<BranchProduct>)
    ensures |r| == |data|
    ensures forall i | 0 <= i < |data| :: r[i].id == data[i].id
    ensures forall i | 0 <= i < |data| :: r[i].fields.quantity == if data[i].id == id then q else data[i].fields.quantity
    ensures forall i | 0 <= i < |data| :: r[i].fields.(quantity := Null) == data[i].fields.(quantity := Null)
  {
    UpdateId(data, id, (f: BranchProductFields) => f.(quantity := q))
  }

  /** `updateProductStatus(id, newStatus)`. */
  function UpdateProductStatus(data: seq<BranchProduct>, id: int, status: string): (r: seq<BranchProduct>)
    ensures |r| == |data|
    ensures forall i | 0 <= i < |data| :: r[i].id == data[i].id
    ensures forall i | 0 <= i < |data| :: r[i].fields.status == if data[i].id == id then status else data[i].fields.status
    ensures forall i | 0 <= i < |data| :: r[i].fields.(status := "") == data[i].fields.(status := "")
  {
    UpdateId(data, id, (f: BranchProductFields) => f.(status := status))
  }

  /** The two edits touch different fields of the row, so their order does
      not matter. */
  lemma QuantityAndStatusCommute(data: seq<BranchProduct>, id: int, q: Scalar, st: string)
    ensures UpdateProductStatus(UpdateProductQuantity(data, id, q), id, st)
         == UpdateProductQuantity(UpdateProductStatus(data, id, st), id, q)
  {
    var a := UpdateProductStatus(UpdateProductQuantity(data, id, q), id, st);
    var b := UpdateProductQuantity(UpdateProductStatus(data, id, st), id, q);
    forall i | 0 <= i < |data| ensures a[i] == b[i] {
      assert a[i].fields.(status := "", quantity := Null) == b[i].fields.(status := "", quantity := Null);
    }
  }

  /** The quantity dialog's "Save": the row takes the new quantity and the
      dialog closes after a successful request; a failure keeps both.
      Returns the rows and whether the dialog is open. */
  function HandleQuantityChange(data: seq<BranchProduct>, id: int, q: Scalar, reply: Reply<()>): (r: (seq<BranchProduct>, bool))
    ensures reply.Ok? ==> r == (UpdateProductQuantity(data, id, q), false)
    ensures reply.Fail? ==> r == (data, true)
  {
    if reply.Ok? then (UpdateProductQuantity(data, id, q), false) else (data, true)
  }

  /** The quantity opens its edit dialog on a click unless the product is
      inactive. */
  predicate QuantityEditable(status: string) {
    status != Inactive
  }

  /** The status the switch asks for: off when on, on otherwise. */
  function ToggleTarget(isActive: bool): (s: string)
    ensures s == Active <==> !isActive
    ensures s == Inactive <==> isActive
  {
    if isActive then Inactive else Active
  }

  /** The switch of one row: the rows and the switch's local state. */
  datatype StatusCell = StatusCell(data: seq<BranchProduct>, isActive: bool)

  /** The switch as it is first drawn for a status. */
  function InitialSwitch(status: string): (on: bool)
    ensures on <==> status == Active
  {
    status == Active
  }

  /** `handleStatusToggle` of the row `id`: after a successful PATCH the row
      takes the target status and the switch flips; a failure keeps both. */
  function HandleStatusToggle(c: StatusCell, id: int, reply: Reply<()>): (r: StatusCell)
    ensures reply.Ok? ==> r == StatusCell(UpdateProductStatus(c.data, id, ToggleTarget(c.isActive)), !c.isActive)
    ensures reply.Fail? ==> r == c
  {
    if reply.Ok? then StatusCell(UpdateProductStatus(c.data, id, ToggleTarget(c.isActive)), !c.isActive) else c
  }

  /** A switch that shows a row's status keeps showing it after a
      successful toggle, and the quantity is editable exactly when the
      switch is on. */
  lemma ToggleKeepsSwitchInStep(c: StatusCell, i: int)
    requires 0 <= i < |c.data| && c.isActive == InitialSwitch(c.data[i].fields.status)
    ensures var r := HandleStatusToggle(c, c.data[i].id, Ok(()));
            r.isActive == InitialSwitch(r.data[i].fields.status) &&
            (QuantityEditable(r.data[i].fields.status) <==> r.isActive)
  {
  }

  /** Two successful toggles put the switch back, and put the row's status
      back exactly when it was "active" or "inactive" to begin with. */
  lemma ToggleTwice(c: StatusCell, i: int)
    requires 0 <= i < |c.data| && c.isActive == InitialSwitch(c.data[i].fields.status)
    ensures var id := c.data[i].id;
            var r := HandleStatusToggle(HandleStatusToggle(c, id, Ok(())), id, Ok(()));
            r.isActive == c.isActive &&
            (r.data[i] == c.data[i] <==> c.data[i].fields.status in {Active, Inactive})
  {
    var id := c.data[i].id;
    var r := HandleStatusToggle(HandleStatusToggle(c, id, Ok(())), id, Ok(()));
    assert r.data[i].fields.status == (if c.isActive then Active else Inactive);
    assert r.data[i].fields.(status := "") == c.data[i].fields.(status := "");
    if r.data[i].fields.status == c.data[i].fields.status {
      assert r.data[i].fields == c.data[i].fields;
    }
  }

  /** The barcode image address of a product. */
  function BarcodeUrl(barcode: string): (url: string)
    ensures |url| == |MediaBase| + 1 + |barcode|
    ensures url[..|MediaBase|] == MediaBase && url[|MediaBase|] == '/'
    ensures url[|MediaBase| + 1..] == barcode
  {
    MediaBase + "/" + barcode
  }

  /** Different barcodes have different addresses. */
  lemma BarcodeUrlInjective(a: string, b: string)
    requires BarcodeUrl(a) == BarcodeUrl(b)
    ensures a == b
  {
    assert a == BarcodeUrl(a)[|MediaBase| + 1..];
  }
}
