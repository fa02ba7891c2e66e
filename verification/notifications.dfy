/** The store's notifications page: the polled fetch with its loading and
    error state, marking one notification read, deleting one, and the
    precedence of what the card shows. */
module Notifications {
  import opened Wrappers
  import opened JsValues
  import opened Seqs
  import opened Rows
  import opened Http

  datatype NotificationFields = NotificationFields(message: string, createdAt: string, isRead: bool)

  type Notification = Row<NotificationFields>

  datatype PageState = PageState(notifications: seq<Notification>, isLoading: bool, error: Option<string>)

  /** A toast the page raises; `destructive` is the red variant. */
  datatype Toast = Toast(title: string, description: string, destructive: bool)

  const Start := PageState([], true, None)

  const FetchFailed := "Failed to fetch notifications. Please try again."

  /** The start of a fetch, first or polled. */
  function BeginFetch(s: PageState): (r: PageState)
    ensures r.isLoading && r.notifications == s.notifications && r.error == s.error
  {
    s.(isLoading := true)
  }

  /** The end of a fetch: a success replaces the list and clears the error;
      a failure keeps the list, stores the message and raises a toast. */
  function FinishFetch(s: PageState, reply: Reply<seq<Notification>>): (r: (PageState, Option<Toast>))
    ensures !r.0.isLoading
    ensures reply.Ok? ==> r.0.notifications == reply.value && r.0.error.None? && r.1.None?
    ensures reply.Fail? ==> r.0.notifications == s.notifications && r.0.error == Some(FetchFailed)
    ensures reply.Fail? ==> r.1.Some? && r.1.value.destructive
  {
    match reply
    case Ok(items) => (PageState(items, false, None), None)
    case Fail(_) =>
      (PageState(s.notifications, false, Some(FetchFailed)),
       Some(Toast("Error", "Failed to fetch notifications. Please try again later.", true)))
  }

  /** A poll that succeeds shows its list, whatever the earlier polls did. */
  lemma PollRecovers(s: PageState, items: seq<Notification>)
    ensures View(FinishFetch(BeginFetch(s), Ok(items)).0) == if items == [] then Empty else List(items)
  {
  }

  /** Every notification with that id is read afterwards; nothing else
      changes. */
  function MarkRead(list: seq<Notification>, id: int): (r: seq<Notification>)
    ensures |r| == |list|
    ensures forall i | 0 <= i < |list| :: r[i].id == list[i].id
    ensures forall i | 0 <= i < |list| :: r[i].fields.isRead == (list[i].fields.isRead || list[i].id == id)
    ensures forall i | 0 <= i < |list| :: r[i].fields.(isRead := false) == list[i].fields.(isRead := false)
  {
    UpdateId(list, id, (f: NotificationFields) => f.(isRead := true))
  }

  /** Marking a notification read twice is marking it once. */
  lemma MarkReadIdempotent(list: seq<Notification>, id: int)
    ensures MarkRead(MarkRead(list, id), id) == MarkRead(list, id)
  {
    var a := MarkRead(MarkRead(list, id), id);
    var b := MarkRead(list, id);
    forall i | 0 <= i < |list| ensures a[i] == b[i] {
      assert a[i].fields.(isRead := false) == b[i].fields.(isRead := false);
    }
  }

  /** Marking an already read notification changes nothing. */
  lemma MarkReadOfReadIsNoop(list: seq<Notification>, id: int)
    requires forall i | 0 <= i < |list| :: list[i].id == id ==> list[i].fields.isRead
    ensures MarkRead(list, id) == list
  {
    var r := MarkRead(list, id);
    forall i | 0 <= i < |list| ensures r[i] == list[i] {
      assert r[i].fields.(isRead := false) == list[i].fields.(isRead := false);
    }
  }

  /** `markAsRead(id)`: the list changes after a successful POST only; a
      toast reports either outcome. */
  function MarkAsRead(s: PageState, id: int, reply: Reply<()>): (r: (PageState, Toast))
    ensures reply.Ok? ==> r.0 == s.(notifications := MarkRead(s.notifications, id)) && !r.1.destructive
    ensures reply.Fail? ==> r.0 == s && r.1.destructive
  {
    match reply
    case Ok(_) => (s.(notifications := MarkRead(s.notifications, id)), Toast("Success", "Notification marked as read.", false))
    case Fail(_) => (s, Toast("Error", "Failed to mark notification as read. Please try again.", true))
  }

  /** `handleDeleteNotification(id)`: the notification goes after a
      successful DELETE only, the rest keep their order. */
  function DeleteNotification(s: PageState, id: int, reply: Reply<()>): (r: (PageState, Toast))
    ensures reply.Ok? ==> r.0.isLoading == s.isLoading && r.0.error == s.error && !r.1.destructive
    ensures reply.Ok? ==> IsSubsequence(r.0.notifications, s.notifications) && !HasId(r.0.notifications, id)
    ensures reply.Ok? ==> forall x :: x in r.0.notifications <==> x in s.notifications && x.id != id
    ensures reply.Ok? ==> forall x :: multiset(r.0.notifications)[x] == if x.id != id then multiset(s.notifications)[x] else 0
    ensures reply.Ok? ==> r.0.notifications == RemoveId(s.notifications, id)
    ensures reply.Fail? ==> r.0 == s && r.1.destructive
  {
    match reply
    case Ok(_) => (s.(notifications := RemoveId(s.notifications, id)), Toast("Success", "Notification deleted successfully.", false))
    case Fail(_) => (s, Toast("Error", "Failed to delete notification. Please try again.", true))
  }

  /** A read notification that is then deleted is gone as if it had never
      been read. */
  lemma DeleteForgetsRead(list: seq<Notification>, id: int)
    ensures RemoveId(MarkRead(list, id), id) == RemoveId(list, id)
  {
    RemoveAfterUpdate(list, id, (f: NotificationFields) => f.(isRead := true));
  }

  /** The "Mark as read" button is offered on unread notifications only. */
  predicate ShowMarkAsRead(n: Notification) {
    !n.fields.isRead
  }

  /** After a successful mark, the row offers the button no more. */
  lemma MarkedRowsHideButton(s: PageState, id: int, i: int)
    requires 0 <= i < |s.notifications| && s.notifications[i].id == id
    ensures !ShowMarkAsRead(MarkAsRead(s, id, Ok(())).0.notifications[i])
  {
  }

  /** What the card shows. */
  datatype CardView = Spinner | ErrorText(message: string) | Empty | List(items: seq<Notification>)

  function View(s: PageState): (v: CardView)
    ensures v == Spinner <==> s.isLoading
    ensures v.ErrorText? <==> !s.isLoading && Present(s.error)
    ensures v == Empty <==> !s.isLoading && !Present(s.error) && s.notifications == []
    ensures v.List? ==> v.items == s.notifications && v.items != []
  {
    if s.isLoading then Spinner
    else if Present(s.error) then ErrorText(s.error.value)
    else if |s.notifications| == 0 then Empty
    else List(s.notifications)
  }
}
