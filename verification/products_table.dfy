/** The store's products table: the colour band of a quantity, the
    selection state behind the add/edit dialog, and the delete flow, which
    asks for confirmation and then removes the product's rows once the
    server agrees. */
module ProductsTable {
  import opened Wrappers
  import opened JsStrings
  import opened Seqs
  import opened Rows
  import opened Http

  /** The quantity cell's colours: yellow, red and green. */
  datatype Band = Low | Out | Normal

  /** The band of a quantity. Negative quantities fall through to the
      green branch, as do quantities above ten. */
  function StockBand(q: int): (b: Band)
    ensures b == Low <==> 0 < q <= 10
    ensures b == Out <==> q == 0
    ensures b == Normal <==> q < 0 || 10 < q
  {
    if q > 0 && q <= 10 then Low
    else if q == 0 then Out
    else Normal
  }

  /** Raising the stock of a product that is low or out never makes its
      band worse than low, and a raise past ten turns it green. */
  lemma RestockBand(q: int, q': int)
    requires 0 <= q <= q'
    ensures StockBand(q) == Low ==> StockBand(q') != Out
    ensures q' > 10 ==> StockBand(q') == Normal
  {
  }

  datatype ProductFields = ProductFields(name: string, quantity: int)

  type Product = Row<ProductFields>

  datatype TableState = TableState(
    data: seq<Product>,
    isModalOpen: bool,
    selectedProductId: Option<int>,
    isDeleteModalOpen: bool,
    productToDelete: Option<int>)

  /** `if (productToDelete)`: `null` and `0` are falsy. */
  predicate DeleteArmed(t: TableState) {
    t.productToDelete.Some? && t.productToDelete.value != 0
  }

  /** "Add Product": the dialog opens with no product selected. */
  function HandleAddProduct(t: TableState): (r: TableState)
    ensures r.isModalOpen && r.selectedProductId.None?
    ensures r.(isModalOpen := t.isModalOpen, selectedProductId := t.selectedProductId) == t
  {
    t.(selectedProductId := None, isModalOpen := true)
  }

  /** "Edit": the dialog opens on the chosen product. */
  function HandleEditProduct(t: TableState, id: int): (r: TableState)
    ensures r.isModalOpen && r.selectedProductId == Some(id)
    ensures r.(isModalOpen := t.isModalOpen, selectedProductId := t.selectedProductId) == t
  {
    t.(selectedProductId := Some(id), isModalOpen := true)
  }

  /** "Delete": the confirmation opens on the chosen product. */
  function HandleDeleteProduct(t: TableState, id: int): (r: TableState)
    ensures r.isDeleteModalOpen && r.productToDelete == Some(id)
    ensures r.(isDeleteModalOpen := t.isDeleteModalOpen, productToDelete := t.productToDelete) == t
  {
    t.(productToDelete := Some(id), isDeleteModalOpen := true)
  }

  /** The DELETE request's path for a product. */
  function DeletePath(id: int): string {
    "/products/" + IntToString(id) + "/"
  }

  /** `confirmDelete`: the request sent, if any, and the table after it
      settles. Unarmed, nothing happens. Armed, the rows of the product go
      on success, and either way the confirmation closes and forgets the
      product. */
  function ConfirmDelete(t: TableState, reply: Reply<()>): (r: (TableState, Option<string>))
    ensures !DeleteArmed(t) ==> r == (t, None)
    ensures DeleteArmed(t) ==> r.1 == Some(DeletePath(t.productToDelete.value))
    ensures DeleteArmed(t) ==> !r.0.isDeleteModalOpen && r.0.productToDelete.None?
    ensures DeleteArmed(t) && reply.Ok? ==>
              IsSubsequence(r.0.data, t.data) && !HasId(r.0.data, t.productToDelete.value) &&
              forall x :: multiset(r.0.data)[x] == if x.id != t.productToDelete.value then multiset(t.data)[x] else 0
    ensures DeleteArmed(t) && reply.Fail? ==> r.0.data == t.data
    ensures r.0.isModalOpen == t.isModalOpen && r.0.selectedProductId == t.selectedProductId
  {
    if !DeleteArmed(t) then (t, None)
    else
      var id := t.productToDelete.value;
      var data := if reply.Ok? then RemoveId(t.data, id) else t.data;
      (t.(data := data, isDeleteModalOpen := false, productToDelete := None), Some(DeletePath(id)))
  }

  /** Choosing "Delete" on a product and confirming removes that product's
      rows when the server agrees, and leaves the other rows alone; the
      confirmation ends closed either way. */
  lemma DeleteFlow(t: TableState, id: int, reply: Reply<()>, x: Product)
    requires id != 0
    ensures var r := ConfirmDelete(HandleDeleteProduct(t, id), reply).0;
            !r.isDeleteModalOpen && r.productToDelete.None? &&
            (x in r.data <==> x in t.data && (reply.Fail? || x.id != id))
  {
  }

  /** A product numbered 0 cannot be deleted: the confirmation stays open
      and nothing is sent. */
  lemma ZeroIdNeverDeleted(t: TableState, reply: Reply<()>)
    ensures ConfirmDelete(HandleDeleteProduct(t, 0), reply) == (HandleDeleteProduct(t, 0), None)
  {
  }
}
