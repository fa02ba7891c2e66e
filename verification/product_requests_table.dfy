/** The store's product-requests table: a status edit on one request, the
    create dialog that appends the server's row, the delete confirmation
    that removes the selected request, and the status badge. */
module ProductRequestsTable {
  import opened Wrappers
  import opened JsStrings
  import opened Seqs
  import opened Rows
  import opened Http

  datatype RequestFields = RequestFields(product: string, branch: string, quantity: int, status: string)

  type Request = Row<RequestFields>

  datatype RequestsState = RequestsState(
    data: seq<Request>,
    isCreateModalOpen: bool,
    isDeleteModalOpen: bool,
    selectedRequestId: Option<int>)

  const Pending := "pending"
  const Acknowledged := "acknowledged"
  const Fulfilled := "fulfilled"

  /** The values the status selector offers. */
  const Statuses := [Pending, Acknowledged, Fulfilled]

  /** `updateRequestStatus(id, newStatus)`: the status of the rows with that
      id becomes `newStatus`; nothing else changes. */
  function UpdateRequestStatus(data: seq<Request>, id: int, newStatus: string): (r: seq<Request>)
    ensures |r| == |data|
    ensures forall i | 0 <= i < |data| :: r[i].id == data[i].id
    ensures forall i | 0 <= i < |data| :: r[i].fields.status == if data[i].id == id then newStatus else data[i].fields.status
    ensures forall i | 0 <= i < |data| :: r[i].fields.(status := "") == data[i].fields.(status := "")
  {
    UpdateId(data, id, (f: RequestFields) => f.(status := newStatus))
  }

  /** The status cell's "Save": after a successful PATCH the row takes the
      new status and the dialog closes; a failure keeps both. Returns the
      rows and whether the dialog is open. */
  function HandleStatusChange(data: seq<Request>, id: int, newStatus: string, reply: Reply<()>): (r: (seq<Request>, bool))
    ensures reply.Ok? ==> r == (UpdateRequestStatus(data, id, newStatus), false)
    ensures reply.Fail? ==> r == (data, true)
  {
    if reply.Ok? then (UpdateRequestStatus(data, id, newStatus), false) else (data, true)
  }

  /** The second of two status edits of a request is the one that stays. */
  lemma LastStatusWins(data: seq<Request>, id: int, a: string, b: string)
    ensures UpdateRequestStatus(UpdateRequestStatus(data, id, a), id, b) == UpdateRequestStatus(data, id, b)
  {
    var r := UpdateRequestStatus(UpdateRequestStatus(data, id, a), id, b);
    var s := UpdateRequestStatus(data, id, b);
    forall i | 0 <= i < |data| ensures r[i] == s[i] {
      assert r[i].fields.(status := "") == s[i].fields.(status := "");
    }
  }

  /** `handleCreateRequest`: the server's row is appended and the dialog
      closes, on success only. */
  function HandleCreateRequest(s: RequestsState, reply: Reply<Request>): (r: RequestsState)
    ensures reply.Ok? ==> r == s.(data := s.data + [reply.value], isCreateModalOpen := false)
    ensures reply.Fail? ==> r == s
  {
    match reply
    case Ok(row) => s.(data := s.data + [row], isCreateModalOpen := false)
    case Fail(_) => s
  }

  /** The trash icon of a row: select it and open the confirmation. */
  function SelectForDelete(s: RequestsState, id: int): (r: RequestsState)
    ensures r.selectedRequestId == Some(id) && r.isDeleteModalOpen
    ensures r.data == s.data && r.isCreateModalOpen == s.isCreateModalOpen
  {
    s.(selectedRequestId := Some(id), isDeleteModalOpen := true)
  }

  /** `request.id !== selectedRequestId`: no number is `null`, so with
      nothing selected every row is kept. */
  function KeepAfterDelete(data: seq<Request>, selected: Option<int>): (r: seq<Request>)
    ensures selected.None? ==> r == data
    ensures selected.Some? ==> r == RemoveId(data, selected.value)
  {
    match selected
    case None => FilterAll(data, (x: Request) => true); Filter(data, (x: Request) => true)
    case Some(id) => RemoveId(data, id)
  }

  /** The DELETE request's path: the selected id, `null` when there is none. */
  function DeletePath(selected: Option<int>): string {
    "/product-requests/" + (match selected case None => "null" case Some(id) => IntToString(id)) + "/"
  }

  /** `handleDeleteRequest`: the request sent, and the table after it
      settles; the rows go and the confirmation closes on success only. */
  function HandleDeleteRequest(s: RequestsState, reply: Reply<()>): (r: (RequestsState, string))
    ensures r.1 == DeletePath(s.selectedRequestId)
    ensures reply.Fail? ==> r.0 == s
    ensures reply.Ok? ==> !r.0.isDeleteModalOpen && r.0.selectedRequestId == s.selectedRequestId
    ensures reply.Ok? ==> r.0.isCreateModalOpen == s.isCreateModalOpen
    ensures reply.Ok? ==> r.0.data == KeepAfterDelete(s.data, s.selectedRequestId)
    ensures reply.Ok? && s.selectedRequestId.None? ==> r.0.data == s.data
    ensures reply.Ok? && s.selectedRequestId.Some? ==>
              forall x :: multiset(r.0.data)[x] == if x.id != s.selectedRequestId.value then multiset(s.data)[x] else 0
    ensures reply.Ok? && s.selectedRequestId.Some? ==>
              IsSubsequence(r.0.data, s.data) && !HasId(r.0.data, s.selectedRequestId.value) &&
              forall x :: x in r.0.data <==> x in s.data && x.id != s.selectedRequestId.value
  {
    var path := DeletePath(s.selectedRequestId);
    if reply.Ok? then
      (s.(data := KeepAfterDelete(s.data, s.selectedRequestId), isDeleteModalOpen := false), path)
    else (s, path)
  }

  /** Selecting a request and confirming removes exactly that request's
      rows when the server agrees. */
  lemma DeleteSelected(s: RequestsState, id: int, x: Request)
    ensures var r := HandleDeleteRequest(SelectForDelete(s, id), Ok(())).0;
            x in r.data <==> x in s.data && x.id != id
  {
  }

  datatype Badge = Yellow | Green | Indigo

  /** The status cell's colour. */
  function StatusBadge(status: string): (b: Badge)
    ensures b == Yellow <==> status == Pending
    ensures b == Green <==> status == Fulfilled
    ensures b == Indigo <==> status != Pending && status != Fulfilled
  {
    if status == Pending then Yellow
    else if status == Fulfilled then Green
    else Indigo
  }

  /** On the statuses the selector offers, each colour means one status. */
  lemma BadgeTellsStatusesApart(a: string, b: string)
    requires a in Statuses && b in Statuses
    ensures StatusBadge(a) == StatusBadge(b) ==> a == b
  {
  }
}
