/** The multi-product inflow dialog: rows of (product, supplier, quantity
    received, manufacturing date, expiry date) edited without validation,
    posted as they stand, and reset to one blank row after a successful
    post. */
module InflowModal {
  import opened Wrappers
  import opened Seqs
  import opened Rows
  import opened Http

  datatype Field = Product | Supplier | QuantityReceived | ManufacturingDate | ExpiryDate

  datatype InflowFields = InflowFields(product: string, supplier: string, quantityReceived: string,
                                       manufacturingDate: string, expiryDate: string)

  type Item = Row<InflowFields>

  /** The rows and the parent's `isCreateModalOpen` flag. */
  datatype Modal = Modal(items: seq<Item>, isOpen: bool)

  const Blank := InflowFields("", "", "", "", "")

  /** The row list as the dialog starts and as a successful post leaves it. */
  const Reset: seq<Item> := [Row(1, Blank)]

  function Get(x: InflowFields, f: Field): string {
    match f
    case Product => x.product
    case Supplier => x.supplier
    case QuantityReceived => x.quantityReceived
    case ManufacturingDate => x.manufacturingDate
    case ExpiryDate => x.expiryDate
  }

  /** `{ ...item, [field]: value }`. */
  function Set(x: InflowFields, f: Field, v: string): (y: InflowFields)
    ensures Get(y, f) == v
    ensures forall g: Field | g != f :: Get(y, g) == Get(x, g)
  {
    match f
    case Product => x.(product := v)
    case Supplier => x.(supplier := v)
    case QuantityReceived => x.(quantityReceived := v)
    case ManufacturingDate => x.(manufacturingDate := v)
    case ExpiryDate => x.(expiryDate := v)
  }

  /** The edit of one field, as a function on rows' fields. */
  function Setter(field: Field, value: string): (g: InflowFields -> InflowFields)
    ensures forall x :: g(x) == Set(x, field, value)
  {
    (x: InflowFields) => Set(x, field, value)
  }

  /** "Add Item", as written: the new row is numbered `length + 1`. */
  function Add(m: Modal): (r: Modal)
    ensures r.isOpen == m.isOpen
    ensures |r.items| == |m.items| + 1 && r.items[..|m.items|] == m.items
    ensures r.items[|m.items|] == Row(|m.items| + 1, Blank)
  {
    m.(items := AppendNumbered(m.items, Blank))
  }

  /** Removing a row keeps exactly the rows with another id, in order. */
  function Remove(m: Modal, id: int): (r: Modal)
    ensures r.isOpen == m.isOpen
    ensures IsSubsequence(r.items, m.items)
    ensures forall x :: multiset(r.items)[x] == if x.id != id then multiset(m.items)[x] else 0
  {
    m.(items := RemoveId(m.items, id))
  }

  /** `updateInflowItem(id, field, value)`: only that field of the rows
      with that id changes. */
  function Update(m: Modal, id: int, field: Field, value: string): (r: Modal)
    ensures r.isOpen == m.isOpen && |r.items| == |m.items|
    ensures forall i, g | 0 <= i < |m.items| ::
              r.items[i].id == m.items[i].id &&
              Get(r.items[i].fields, g) == if m.items[i].id == id && g == field then value else Get(m.items[i].fields, g)
  {
    m.(items := UpdateId(m.items, id, Setter(field, value)))
  }

  /** `handleCreateInflow`: the rows are the POST body, unvalidated; only a
      successful POST closes the dialog and resets the rows. */
  function HandleCreateInflow(m: Modal, reply: Reply<()>): (r: (Modal, seq<Item>))
    ensures r.1 == m.items
    ensures reply.Ok? ==> r.0 == Modal(Reset, false)
    ensures reply.Fail? ==> r.0 == m
  {
    (if reply.Ok? then Modal(Reset, false) else m, m.items)
  }

  /** After a successful POST the dialog is back in its opening state,
      whatever was entered. */
  lemma CreateForgetsRows(m: Modal, m': Modal)
    ensures HandleCreateInflow(m, Ok(())).0 == HandleCreateInflow(m', Ok(())).0
  {
  }

  /** Adding after a removal reuses an id: add, remove row 1, add leaves
      two rows numbered 2, and editing row 2 then edits both. */
  lemma DuplicateIdScenario(open: bool, v: string)
    ensures var m := Add(Remove(Add(Modal(Reset, open)), 1));
            m.items == [Row(2, Blank), Row(2, Blank)] &&
            Update(m, 2, Supplier, v).items == [Row(2, Blank.(supplier := v)), Row(2, Blank.(supplier := v))]
  {
    var m := Add(Remove(Add(Modal(Reset, open)), 1));
    assert m.items == AppendNumbered(RemoveId(AppendNumbered([Row(1, Blank)], Blank), 1), Blank);
    RenumberAfterRemoveFirst(Blank, Blank);
    UpdateBothRows(2, Blank, Setter(Supplier, v));
    assert Setter(Supplier, v)(Blank) == Blank.(supplier := v);
  }

  /** "Add Item" with fresh numbering. */
  function AddFresh(m: Modal): (r: Modal)
    ensures r.isOpen == m.isOpen
    ensures |r.items| == |m.items| + 1 && r.items[..|m.items|] == m.items
    ensures r.items[|m.items|].fields == Blank && !HasId(m.items, r.items[|m.items|].id)
    ensures DistinctIds(m.items) ==> DistinctIds(r.items)
  {
    m.(items := AppendFresh(m.items, Blank))
  }

  /** One action in the dialog. */
  datatype Action = AddRow | RemoveRow(id: int) | Change(id: int, field: Field, value: string) | Submit(reply: Reply<()>)

  function Apply(m: Modal, a: Action): Modal {
    match a
    case AddRow => AddFresh(m)
    case RemoveRow(id) => Remove(m, id)
    case Change(id, field, value) => Update(m, id, field, value)
    case Submit(reply) => HandleCreateInflow(m, reply).0
  }

  function ApplyAll(m: Modal, actions: seq<Action>): Modal
    decreases |actions|
  {
    if actions == [] then m else ApplyAll(Apply(m, actions[0]), actions[1..])
  }

  lemma ApplyKeepsDistinct(m: Modal, a: Action)
    requires DistinctIds(m.items)
    ensures DistinctIds(Apply(m, a).items)
  {
    match a
    case RemoveRow(id) => RemoveKeepsDistinct(m.items, id);
    case Change(id, field, value) =>
      var r := Update(m, id, field, value).items;
      assert forall i | 0 <= i < |r| :: r[i].id == m.items[i].id;
    case _ =>
  }

  /** With fresh numbering no two rows ever share an id, so every edit and
      removal names exactly one row. */
  lemma {:induction false} ActionsKeepDistinct(m: Modal, actions: seq<Action>)
    requires DistinctIds(m.items)
    ensures DistinctIds(ApplyAll(m, actions).items)
    decreases |actions|
  {
    if actions != [] {
      ApplyKeepsDistinct(m, actions[0]);
      ActionsKeepDistinct(Apply(m, actions[0]), actions[1..]);
    }
  }
}
