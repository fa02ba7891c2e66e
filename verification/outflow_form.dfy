/** The outflow form: rows of (product, branch, quantity sent, expiry
    date), an error map keyed by row id that a change of product or
    quantity re-validates against the chosen product's stock, and a submit
    that goes through only while the error map is empty. */
module OutflowForm {
  import opened Wrappers
  import opened JsStrings
  import opened Seqs
  import opened Rows

  datatype Field = Product | Branch | QuantitySent | ExpiryDate

  /** A row's editable values, all strings as the inputs hold them;
      `product` and `branch` are the chosen record's id as a string. */
  datatype OutflowFields = OutflowFields(product: string, branch: string, quantitySent: string, expiryDate: string)

  type Item = Row<OutflowFields>

  /** A product of the `products` prop: its id and its stock. */
  datatype StockProduct = StockProduct(id: int, quantity: int)

  datatype Form = Form(items: seq<Item>, errors: map<int, string>)

  const Blank := OutflowFields("", "", "", "")

  /** The form as it opens: one blank row with id 1 and no errors. */
  const Initial := Form([Row(1, Blank)], map[])

  const PositiveMessage := "Quantity must be a positive number"

  function ExceedsMessage(stock: int): string {
    "Quantity exceeds available stock (" + IntToString(stock) + ")"
  }

  function Get(x: OutflowFields, f: Field): string {
    match f
    case Product => x.product
    case Branch => x.branch
    case QuantitySent => x.quantitySent
    case ExpiryDate => x.expiryDate
  }

  /** `{ ...item, [field]: value }`. */
  function Set(x: OutflowFields, f: Field, v: string): (y: OutflowFields)
    ensures Get(y, f) == v
    ensures forall g: Field | g != f :: Get(y, g) == Get(x, g)
  {
    match f
    case Product => x.(product := v)
    case Branch => x.(branch := v)
    case QuantitySent => x.(quantitySent := v)
    case ExpiryDate => x.(expiryDate := v)
  }

  /** The edit of one field, as a function on rows' fields. */
  function Setter(field: Field, value: string): (g: OutflowFields -> OutflowFields)
    ensures forall x :: g(x) == Set(x, field, value)
  {
    (x: OutflowFields) => Set(x, field, value)
  }

  /** `products.find(p => p.id.toString() === key)`. */
  function FindProduct(products: seq<StockProduct>, key: string): (r: Option<StockProduct>)
    ensures r.Some? ==> r.value in products && IntToString(r.value.id) == key
    ensures r.None? ==> forall p | p in products :: IntToString(p.id) != key
    ensures r.Some? ==> exists i | 0 <= i < |products| :: products[i] == r.value && forall j | 0 <= j < i :: IntToString(products[j].id) != key
  {
    match Find(products, (p: StockProduct) => IntToString(p.id) == key)
    case None => None
    case Some(i) => Some(products[i])
  }

  /** The verdict on a parsed quantity against a stock level: `None` when
      the quantity is acceptable. */
  function QuantityError(q: Option<int>, stock: int): (e: Option<string>)
    ensures e.None? <==> q.Some? && 0 < q.value <= stock
    ensures e == Some(PositiveMessage) <==> q.None? || q.value <= 0
    ensures e.Some? && e != Some(PositiveMessage) ==> e.value == ExceedsMessage(stock)
  {
    MessagesDiffer(stock);
    if q.None? || q.value <= 0 then Some(PositiveMessage)
    else if q.value > stock then Some(ExceedsMessage(stock))
    else None
  }

  /** The two messages can be told apart. */
  lemma MessagesDiffer(stock: int)
    ensures PositiveMessage != ExceedsMessage(stock)
  {
    assert PositiveMessage[9] != ExceedsMessage(stock)[9];
  }

  /** Writing a verdict into the error map: set the row's message, or
      delete its entry. */
  function Record(errors: map<int, string>, id: int, e: Option<string>): (r: map<int, string>)
    ensures id in r <==> e.Some?
    ensures e.Some? ==> r[id] == e.value
    ensures forall k | k != id :: (k in r <==> k in errors) && (k in r ==> r[k] == errors[k])
  {
    if e.Some? then errors[id := e.value] else errors - {id}
  }

  /** `validateQuantity(id, value, field)` as written: it reads the row from
      the list as it was BEFORE the update, so the product it checks
      against is the row's previous product. */
  function ValidateQuantity(items: seq<Item>, errors: map<int, string>, products: seq<StockProduct>,
                            id: int, value: string, field: Field): (r: map<int, string>)
    ensures forall k | k != id :: (k in r <==> k in errors) && (k in r ==> r[k] == errors[k])
    ensures !HasId(items, id) ==> r == errors
    ensures HasId(items, id) && FindProduct(products, FindId(items, id).value.fields.product).None? ==> r == errors
    ensures HasId(items, id) && FindProduct(products, FindId(items, id).value.fields.product).Some? ==>
              var stock := FindProduct(products, FindId(items, id).value.fields.product).value.quantity;
              var q := ParseInt(if field == QuantitySent then value else FindId(items, id).value.fields.quantitySent);
              (id in r <==> !(q.Some? && 0 < q.value <= stock)) &&
              (id in r ==> r[id] == if q.None? || q.value <= 0 then PositiveMessage else ExceedsMessage(stock))
  {
    match FindId(items, id)
    case None => errors
    case Some(item) =>
      match FindProduct(products, item.fields.product)
      case None => errors
      case Some(p) =>
        var q := ParseInt(if field == QuantitySent then value else item.fields.quantitySent);
        Record(errors, id, QuantityError(q, p.quantity))
  }

  /** "Add Item", as written: the new row is numbered `length + 1`. */
  function Add(f: Form): (r: Form)
    ensures r.errors == f.errors
    ensures |r.items| == |f.items| + 1 && r.items[..|f.items|] == f.items
    ensures r.items[|f.items|] == Row(|f.items| + 1, Blank)
  {
    f.(items := AppendNumbered(f.items, Blank))
  }

  /** Removing a row: every row with that id and its error entry go. */
  function Remove(f: Form, id: int): (r: Form)
    ensures !HasId(r.items, id) && id !in r.errors
    ensures forall x :: x in r.items <==> x in f.items && x.id != id
    ensures IsSubsequence(r.items, f.items)
    ensures forall k | k != id :: (k in r.errors <==> k in f.errors) && (k in r.errors ==> r.errors[k] == f.errors[k])
  {
    Form(RemoveId(f.items, id), f.errors - {id})
  }

  /** `updateOutflowItem(id, field, value)`, as written. */
  function Update(f: Form, products: seq<StockProduct>, id: int, field: Field, value: string): (r: Form)
    ensures |r.items| == |f.items|
    ensures forall i, g | 0 <= i < |f.items| ::
              r.items[i].id == f.items[i].id &&
              Get(r.items[i].fields, g) == if f.items[i].id == id && g == field then value else Get(f.items[i].fields, g)
    ensures field == Branch || field == ExpiryDate ==> r.errors == f.errors
    ensures field == Product || field == QuantitySent ==> r.errors == ValidateQuantity(f.items, f.errors, products, id, value, field)
    ensures forall k | k != id :: (k in r.errors <==> k in f.errors) && (k in r.errors ==> r.errors[k] == f.errors[k])
  {
    var items := UpdateId(f.items, id, Setter(field, value));
    if field == Product || field == QuantitySent then
      Form(items, ValidateQuantity(f.items, f.errors, products, id, value, field))
    else
      Form(items, f.errors)
  }

  /** `handleSubmit`: the rows go to `onSubmit` exactly when no error is
      recorded. */
  function HandleSubmit(f: Form): (r: Option<seq<Item>>)
    ensures r.Some? <==> f.errors == map[]
    ensures r.Some? ==> r.value == f.items
  {
    if |f.errors| == 0 then Some(f.items) else None
  }

  /** The submit button is disabled while some error is recorded. */
  predicate SubmitDisabled(f: Form) {
    |f.errors| > 0
  }

  lemma SubmitDisabledIffRefused(f: Form)
    ensures SubmitDisabled(f) <==> HandleSubmit(f).None?
  {
    if |f.errors| == 0 {
      assert f.errors == map[];
    }
  }

  /** Adding after a removal reuses an id: add, remove row 1, add leaves two
      rows numbered 2, and removing row 2 then deletes both. */
  lemma DuplicateIdScenario()
    ensures var f := Add(Remove(Add(Initial), 1));
            f.items == [Row(2, Blank), Row(2, Blank)] && !DistinctIds(f.items) &&
            Remove(f, 2).items == []
  {
    var f1 := Add(Initial);
    var f := Add(Remove(f1, 1));
    assert f.items == AppendNumbered(RemoveId(AppendNumbered([Row(1, Blank)], Blank), 1), Blank);
    RenumberAfterRemoveFirst(Blank, Blank);
    RemoveEveryRow(f.items, 2);
  }

  /** Changing a row's product validates against the product it had
      before: from the opening form, typing quantity 5 and then choosing
      product 7, which has 3 in stock, records no error and lets the form
      submit 5 units of it. */
  lemma StaleProductScenario()
    ensures var products := [StockProduct(7, 3)];
            var f := Update(Update(Initial, products, 1, QuantitySent, "5"), products, 1, Product, "7");
            f.items == [Row(1, OutflowFields("7", "", "5", ""))] &&
            HandleSubmit(f) == Some(f.items) &&
            FindProduct(products, "7") == Some(StockProduct(7, 3)) && ParseInt("5") == Some(5)
  {
    var products := [StockProduct(7, 3)];
    assert IntToString(7) == "7";
    assert IntToString(5) == "5";
    ParseIntToString(5);
    var f1 := Update(Initial, products, 1, QuantitySent, "5");
    assert FindProduct(products, "") == None;
    assert f1.errors == map[];
    assert f1.items == [Row(1, OutflowFields("", "", "5", ""))];
    var f := Update(f1, products, 1, Product, "7");
    assert f.items == [Row(1, OutflowFields("7", "", "5", ""))];
    assert f.errors == map[];
  }

  // ------------------------------------------------ validated editing

  /** What the error map should say about a row: the verdict on its own
      quantity against its own product, and nothing while it names no
      product of the list. */
  function RowProblem(item: Item, products: seq<StockProduct>): Option<string> {
    match FindProduct(products, item.fields.product)
    case None => None
    case Some(p) => QuantityError(ParseInt(item.fields.quantitySent), p.quantity)
  }

  /** Validation of the row as it is AFTER the update. */
  function Revalidate(items: seq<Item>, errors: map<int, string>, products: seq<StockProduct>, id: int): (r: map<int, string>)
    ensures forall k | k != id :: (k in r <==> k in errors) && (k in r ==> r[k] == errors[k])
    ensures !HasId(items, id) ==> r == errors
    ensures HasId(items, id) ==>
              var e := RowProblem(FindId(items, id).value, products);
              (id in r <==> e.Some?) && (id in r ==> r[id] == e.value)
  {
    match FindId(items, id)
    case None => errors
    case Some(item) => Record(errors, id, RowProblem(item, products))
  }

  /** "Add Item" with fresh numbering. */
  function AddFresh(f: Form): (r: Form)
    ensures r.errors == f.errors
    ensures |r.items| == |f.items| + 1 && r.items[..|f.items|] == f.items
    ensures r.items[|f.items|].fields == Blank && !HasId(f.items, r.items[|f.items|].id)
  {
    f.(items := AppendFresh(f.items, Blank))
  }

  /** `updateOutflowItem` validating the updated row. */
  function UpdateChecked(f: Form, products: seq<StockProduct>, id: int, field: Field, value: string): (r: Form)
    ensures r.items == Update(f, products, id, field, value).items
    ensures field == Branch || field == ExpiryDate ==> r.errors == f.errors
    ensures field == Product || field == QuantitySent ==> r.errors == Revalidate(r.items, f.errors, products, id)
  {
    var items := UpdateId(f.items, id, Setter(field, value));
    if field == Product || field == QuantitySent then
      Form(items, Revalidate(items, f.errors, products, id))
    else
      Form(items, f.errors)
  }

  /** The error map's entry for `item` is the verdict on it. */
  ghost predicate RowAgrees(errors: map<int, string>, item: Item, products: seq<StockProduct>) {
    (item.id in errors <==> RowProblem(item, products).Some?)
    && (item.id in errors ==> errors[item.id] == RowProblem(item, products).value)
  }

  /** The error map holds exactly the verdicts on the rows, and row ids are
      distinct so that an entry names one row. */
  ghost predicate Accurate(f: Form, products: seq<StockProduct>) {
    DistinctIds(f.items)
    && (forall k | k in f.errors :: HasId(f.items, k))
    && (forall x | x in f.items :: RowAgrees(f.errors, x, products))
  }

  /** A blank row names no product: no numeral is empty. */
  lemma BlankHasNoProblem(products: seq<StockProduct>, id: int)
    ensures RowProblem(Row(id, Blank), products) == None
  {
    assert FindProduct(products, "").None?;
  }

  lemma InitialAccurate(products: seq<StockProduct>)
    ensures Accurate(Initial, products)
  {
    BlankHasNoProblem(products, 1);
  }

  /** With distinct ids, the first row carrying an id is the only one. */
  lemma FindIdUnique(s: seq<Item>, i: int)
    requires DistinctIds(s) && 0 <= i < |s|
    ensures FindId(s, s[i].id) == Some(s[i])
  {
    var r := FindId(s, s[i].id);
    var j :| 0 <= j < |s| && s[j] == r.value;
  }

  lemma AddFreshKeepsAccurate(f: Form, products: seq<StockProduct>)
    requires Accurate(f, products)
    ensures Accurate(AddFresh(f), products)
  {
    var r := AddFresh(f);
    var n := |f.items|;
    assert r.items == f.items + [r.items[n]];
    BlankHasNoProblem(products, r.items[n].id);
    assert r.items[n].id !in f.errors;
    forall k | k in r.errors ensures HasId(r.items, k) {
      var i :| 0 <= i < n && f.items[i].id == k;
      assert r.items[i].id == k;
    }
  }

  lemma RemoveKeepsAccurate(f: Form, products: seq<StockProduct>, id: int)
    requires Accurate(f, products)
    ensures Accurate(Remove(f, id), products)
  {
    var r := Remove(f, id);
    SubsequenceKeepsDistinct(r.items, f.items);
    RemoveKeepsRowsAgreeing(f, products, id);
    RemoveKeepsKeysOnRows(f, id);
  }

  lemma RemoveKeepsRowsAgreeing(f: Form, products: seq<StockProduct>, id: int)
    requires forall x | x in f.items :: RowAgrees(f.errors, x, products)
    ensures var r := Remove(f, id);
            forall x | x in r.items :: RowAgrees(r.errors, x, products)
  {
    var r := Remove(f, id);
    forall x | x in r.items ensures RowAgrees(r.errors, x, products) {
      assert RowAgrees(f.errors, x, products);
    }
  }

  lemma RemoveKeepsKeysOnRows(f: Form, id: int)
    requires forall k | k in f.errors :: HasId(f.items, k)
    ensures var r := Remove(f, id);
            forall k | k in r.errors :: HasId(r.items, k)
  {
    var r := Remove(f, id);
    forall k | k in r.errors ensures HasId(r.items, k) {
      var i :| 0 <= i < |f.items| && f.items[i].id == k;
      assert f.items[i] in r.items;
      var j :| 0 <= j < |r.items| && r.items[j] == f.items[i];
    }
  }

  /** An edit of a row leaves the verdict on the row alone unless it
      touches its product or its quantity. */
  lemma OtherFieldsKeepProblem(x: Item, field: Field, value: string, products: seq<StockProduct>)
    requires field == Branch || field == ExpiryDate
    ensures RowProblem(Row(x.id, Set(x.fields, field, value)), products) == RowProblem(x, products)
  {
    var y := Set(x.fields, field, value);
    assert Get(y, Product) == Get(x.fields, Product);
    assert Get(y, QuantitySent) == Get(x.fields, QuantitySent);
  }

  lemma UpdateCheckedKeepsAccurate(f: Form, products: seq<StockProduct>, id: int, field: Field, value: string)
    requires Accurate(f, products)
    ensures Accurate(UpdateChecked(f, products, id, field, value), products)
  {
    var r := UpdateChecked(f, products, id, field, value);
    assert DistinctIds(r.items);
    UpdateCheckedKeepsKeysOnRows(f, products, id, field, value);
    UpdateCheckedKeepsRowsAgreeing(f, products, id, field, value);
  }

  lemma UpdateCheckedKeepsKeysOnRows(f: Form, products: seq<StockProduct>, id: int, field: Field, value: string)
    requires forall k | k in f.errors :: HasId(f.items, k)
    ensures var r := UpdateChecked(f, products, id, field, value);
            forall k | k in r.errors :: HasId(r.items, k)
  {
    var r := UpdateChecked(f, products, id, field, value);
    forall k | k in r.errors ensures HasId(r.items, k) {
      if k in f.errors {
        var i :| 0 <= i < |f.items| && f.items[i].id == k;
        assert r.items[i].id == k;
      } else {
        assert HasId(r.items, id);
      }
    }
  }

  lemma UpdateCheckedKeepsRowsAgreeing(f: Form, products: seq<StockProduct>, id: int, field: Field, value: string)
    requires DistinctIds(f.items)
    requires forall x | x in f.items :: RowAgrees(f.errors, x, products)
    ensures var r := UpdateChecked(f, products, id, field, value);
            forall x | x in r.items :: RowAgrees(r.errors, x, products)
  {
    var r := UpdateChecked(f, products, id, field, value);
    forall x | x in r.items ensures RowAgrees(r.errors, x, products) {
      var i :| 0 <= i < |r.items| && r.items[i] == x;
      assert f.items[i] in f.items;
      UpdateCheckedRowAgrees(f, products, id, field, value, i);
    }
  }

  lemma UpdateCheckedRowAgrees(f: Form, products: seq<StockProduct>, id: int, field: Field, value: string, i: int)
    requires DistinctIds(f.items) && 0 <= i < |f.items|
    requires RowAgrees(f.errors, f.items[i], products)
    ensures var r := UpdateChecked(f, products, id, field, value);
            RowAgrees(r.errors, r.items[i], products)
  {
    var r := UpdateChecked(f, products, id, field, value);
    if f.items[i].id != id {
      assert r.items[i] == f.items[i];
    } else if field == Product || field == QuantitySent {
      assert DistinctIds(r.items);
      FindIdUnique(r.items, i);
    } else {
      OtherFieldsKeepProblem(f.items[i], field, value, products);
    }
  }

  /** One edit of the form by its user. */
  datatype Edit = AddRow | RemoveRow(id: int) | Change(id: int, field: Field, value: string)

  function Apply(f: Form, products: seq<StockProduct>, e: Edit): Form {
    match e
    case AddRow => AddFresh(f)
    case RemoveRow(id) => Remove(f, id)
    case Change(id, field, value) => UpdateChecked(f, products, id, field, value)
  }

  function ApplyAll(f: Form, products: seq<StockProduct>, es: seq<Edit>): Form
    decreases |es|
  {
    if es == [] then f else ApplyAll(Apply(f, products, es[0]), products, es[1..])
  }

  lemma ApplyKeepsAccurate(f: Form, products: seq<StockProduct>, e: Edit)
    requires Accurate(f, products)
    ensures Accurate(Apply(f, products, e), products)
  {
    match e
    case AddRow => AddFreshKeepsAccurate(f, products);
    case RemoveRow(id) => RemoveKeepsAccurate(f, products, id);
    case Change(id, field, value) => UpdateCheckedKeepsAccurate(f, products, id, field, value);
  }

  /** Whatever the user does, the error map keeps holding exactly the
      verdicts on the rows as they are. */
  lemma {:induction false} EditsKeepAccurate(f: Form, products: seq<StockProduct>, es: seq<Edit>)
    requires Accurate(f, products)
    ensures Accurate(ApplyAll(f, products, es), products)
    decreases |es|
  {
    if es != [] {
      ApplyKeepsAccurate(f, products, es[0]);
      EditsKeepAccurate(Apply(f, products, es[0]), products, es[1..]);
    }
  }

  /** What a submission of an accurate form guarantees: every row that
      names a product sends a positive quantity within that product's
      stock. */
  lemma SubmittedWithinStock(f: Form, products: seq<StockProduct>, i: int)
    requires Accurate(f, products) && HandleSubmit(f).Some?
    requires 0 <= i < |f.items| && FindProduct(products, f.items[i].fields.product).Some?
    ensures var q := ParseInt(f.items[i].fields.quantitySent);
            q.Some? && 0 < q.value <= FindProduct(products, f.items[i].fields.product).value.quantity
  {
    assert RowAgrees(f.errors, f.items[i], products);
  }

  /** For quantity edits of an accurate form, the written validation and
      the corrected one agree: only a change of product goes wrong. */
  lemma QuantityEditsAgree(f: Form, products: seq<StockProduct>, id: int, value: string)
    requires Accurate(f, products)
    ensures UpdateChecked(f, products, id, QuantitySent, value) == Update(f, products, id, QuantitySent, value)
  {
    var g := Setter(QuantitySent, value);
    var items := UpdateId(f.items, id, g);
    assert Update(f, products, id, QuantitySent, value).errors
        == ValidateQuantity(f.items, f.errors, products, id, value, QuantitySent);
    assert UpdateChecked(f, products, id, QuantitySent, value).errors
        == Revalidate(items, f.errors, products, id);
    if HasId(f.items, id) {
      assert FindId(f.items, id).value in f.items;
    }
    QuantityValidationAgrees(f.items, f.errors, products, id, value);
  }

  lemma QuantityValidationAgrees(items: seq<Item>, errors: map<int, string>, products: seq<StockProduct>, id: int, value: string)
    requires HasId(items, id) ==> RowAgrees(errors, FindId(items, id).value, products)
    ensures Revalidate(UpdateId(items, id, Setter(QuantitySent, value)), errors, products, id)
         == ValidateQuantity(items, errors, products, id, value, QuantitySent)
  {
    var g := Setter(QuantitySent, value);
    var u := UpdateId(items, id, g);
    FindAfterUpdate(items, id, g);
    if HasId(items, id) {
      var x := FindId(items, id).value;
      var y := Row(id, g(x.fields));
      assert FindId(u, id) == Some(y);
      assert y.fields == x.fields.(quantitySent := value);
      var e := RowProblem(y, products);
      RevalidateFound(u, errors, products, id, y);
      ValidateQuantitySent(items, errors, products, id, value, x, e);
    }
  }

  lemma RevalidateFound(items: seq<Item>, errors: map<int, string>, products: seq<StockProduct>, id: int, y: Item)
    requires FindId(items, id) == Some(y)
    ensures Revalidate(items, errors, products, id) == Record(errors, id, RowProblem(y, products))
  {
  }

  /** The written validation of a quantity edit, on a row that agrees with
      the error map, records the verdict on the edited row. */
  lemma ValidateQuantitySent(items: seq<Item>, errors: map<int, string>, products: seq<StockProduct>,
                             id: int, value: string, x: Item, e: Option<string>)
    requires FindId(items, id) == Some(x) && RowAgrees(errors, x, products)
    requires e == RowProblem(x.(fields := x.fields.(quantitySent := value)), products)
    ensures ValidateQuantity(items, errors, products, id, value, QuantitySent) == Record(errors, id, e)
  {
    match FindProduct(products, x.fields.product)
    case None =>
      assert id !in errors;
      assert errors - {id} == errors;
    case Some(p) =>
  }
}
