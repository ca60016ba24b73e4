/** The schema of the messaging app: the rows of its three tables, the
    field defaults, the notification-type choices, the default orderings,
    and the `on_delete` rules (CASCADE and SET_NULL) the store applies when a
    message or a user row is deleted. */
module Models {
  import opened Wrappers
  import opened Collections

  /** Primary key of a row of Django's `auth.User` table. */
  type UserId = nat

  /** Primary key of an auto-increment table. Django numbers such rows from
      1, so a stored key is never falsy. */
  type Pk = n: nat | n >= 1 witness 1

  /** A notification's `uuid4` primary key, modelled as a value never
      handed out before. */
  type NotificationId = nat

  /** An `auto_now_add` date, modelled as a reading of a monotone clock. */
  type Timestamp = nat

  /** A stored `Message` row. */
  datatype Message = Message(
    sender: UserId,
    receiver: Option<UserId>,
    content: string,
    edited: bool,
    isRead: bool,
    timestamp: Timestamp,
    parentMessage: Option<Pk>)

  /** A stored `MessageHistory` row: `content` is the text the message had
      before the edit that wrote this row. */
  datatype MessageHistory = MessageHistory(
    message: Pk,
    content: string,
    editedAt: Timestamp,
    editedBy: UserId)

  /** A stored `Notification` row. `notificationType` is the raw column
      value; nothing forces it to be one of the choices. */
  datatype Notification = Notification(
    recipient: Option<UserId>,
    sender: Option<UserId>,
    message: Option<Pk>,
    isRead: bool,
    notificationType: string,
    title: string,
    body: string,
    createdAt: Timestamp)

  /** The choices of `notification_type`. */
  datatype NotificationType = TypeMessage | TypeFriendRequest | TypeSystem

  /** The stored code of a choice. */
  function Code(t: NotificationType): string {
    match t
    case TypeMessage => "message"
    case TypeFriendRequest => "friend_request"
    case TypeSystem => "system"
  }

  /** `max_length` of the `notification_type` column. */
  const NotificationTypeMaxLength: nat := 20

  /** Reads a stored `notification_type` back as a choice, if it is one. */
  function ParseNotificationType(code: string): (r: Option<NotificationType>)
    ensures r.Some? ==> Code(r.value) == code
    ensures forall t :: Code(t) == code ==> r == Some(t)
  {
    if code == "message" then Some(TypeMessage)
    else if code == "friend_request" then Some(TypeFriendRequest)
    else if code == "system" then Some(TypeSystem)
    else None
  }

  /** Every choice's code fits the column and the codes are distinct. */
  lemma NotificationTypeCodes(t: NotificationType, t': NotificationType)
    ensures |Code(t)| <= NotificationTypeMaxLength
    ensures Code(t) == Code(t') ==> t == t'
    ensures ParseNotificationType(Code(t)) == Some(t)
  {
  }

  /** The Python object handed to `save()`: a message's fields before the
      store writes them. `pk` is `None` for an object never saved. */
  datatype MessageInstance = MessageInstance(
    pk: Option<Pk>,
    sender: UserId,
    receiver: Option<UserId>,
    content: string,
    edited: bool,
    isRead: bool,
    parentMessage: Option<Pk>)

  /** `Message(sender=..., receiver=..., content=..., parent_message=...)`:
      an unsaved object whose other fields take their defaults. */
  function NewInstance(sender: UserId, receiver: Option<UserId>, content: string,
                       parentMessage: Option<Pk>): (inst: MessageInstance)
    ensures inst.pk == None
    ensures !inst.edited && !inst.isRead
    ensures inst.sender == sender && inst.receiver == receiver
    ensures inst.content == content && inst.parentMessage == parentMessage
  {
    MessageInstance(None, sender, receiver, content, false, false, parentMessage)
  }

  /** The row an INSERT of `inst` stores; `auto_now_add` stamps it `now`. */
  function InsertedRow(inst: MessageInstance, now: Timestamp): (m: Message)
    ensures m.timestamp == now
  {
    Message(inst.sender, inst.receiver, inst.content, inst.edited, inst.isRead,
            now, inst.parentMessage)
  }

  /** The row an UPDATE of `inst` over `stored` leaves: every field comes
      from the object except the `auto_now_add` timestamp. */
  function UpdatedRow(stored: Message, inst: MessageInstance): (m: Message)
    ensures m.timestamp == stored.timestamp
    ensures m.content == inst.content && m.edited == inst.edited
  {
    InsertedRow(inst, stored.timestamp)
  }

  /** `Notification.objects.create(message=m)`: only `message` is given; the
      recipient and the sender stay unset, `is_read` takes its default,
      and `notification_type`, `title` and `body` are empty strings. */
  function MessageNotification(m: Pk, now: Timestamp): (n: Notification)
    ensures n.message == Some(m) && !n.isRead
    ensures n.recipient == None && n.sender == None
    ensures ParseNotificationType(n.notificationType) == None
  {
    Notification(None, None, Some(m), false, "", "", "", now)
  }

  // ---------------------------------------------------------------------
  // Default orderings

  function TimestampKey(m: Message): int { m.timestamp }

  function CreatedAtKey(n: Notification): int { n.createdAt }

  /** `ordering = ['-timestamp']`: a query over messages lists them newest
      first. */
  function MessagesNewestFirst(ms: seq<Message>): (r: seq<Message>)
    ensures forall i, j :: 0 <= i < j < |r| ==> r[i].timestamp >= r[j].timestamp
    ensures multiset(r) == multiset(ms)
  {
    var r := SortBy(ms, TimestampKey, true);
    assert OrderedBy(r, TimestampKey, true);
    r
  }

  /** `ordering = ['-created_at']`: a query over notifications lists them
      newest first. */
  function NotificationsNewestFirst(ns: seq<Notification>): (r: seq<Notification>)
    ensures forall i, j :: 0 <= i < j < |r| ==> r[i].createdAt >= r[j].createdAt
    ensures multiset(r) == multiset(ns)
  {
    var r := SortBy(ns, CreatedAtKey, true);
    assert OrderedBy(r, CreatedAtKey, true);
    r
  }

  // ---------------------------------------------------------------------
  // The store's tables and their referential integrity

  /** The four tables of the store. */
  datatype Tables = Tables(
    users: set<UserId>,
    messages: map<Pk, Message>,
    history: seq<MessageHistory>,
    notifications: map<NotificationId, Notification>)

  predicate MessageRefsOk(m: Message, users: set<UserId>, keys: set<Pk>) {
    && m.sender in users
    && (m.receiver.Some? ==> m.receiver.value in users)
    && (m.parentMessage.Some? ==> m.parentMessage.value in keys)
  }

  predicate NotificationRefsOk(n: Notification, users: set<UserId>, keys: set<Pk>) {
    && (n.recipient.Some? ==> n.recipient.value in users)
    && (n.sender.Some? ==> n.sender.value in users)
    && (n.message.Some? ==> n.message.value in keys)
  }

  /** Every foreign key of every row names a row that exists. */
  predicate Consistent(t: Tables) {
    && (forall k :: k in t.messages ==> MessageRefsOk(t.messages[k], t.users, t.messages.Keys))
    && (forall h :: h in t.history ==> h.message in t.messages && h.editedBy in t.users)
    && (forall k :: k in t.notifications ==>
          NotificationRefsOk(t.notifications[k], t.users, t.messages.Keys))
  }

  /** No row names user `u` in any role. */
  predicate NoReferenceTo(t: Tables, u: UserId) {
    && (forall k :: k in t.messages ==>
          t.messages[k].sender != u && t.messages[k].receiver != Some(u))
    && (forall h :: h in t.history ==> h.editedBy != u)
    && (forall k :: k in t.notifications ==>
          t.notifications[k].recipient != Some(u) && t.notifications[k].sender != Some(u))
  }

  /** In consistent tables, a user without a row is named by no row. */
  lemma AbsentUserUnreferenced(t: Tables, u: UserId)
    requires Consistent(t) && u !in t.users
    ensures NoReferenceTo(t, u)
  {
  }

  // ---------------------------------------------------------------------
  // CASCADE through `parent_message`

  /** The messages whose parent is in `s`. */
  function RepliesTo(ms: map<Pk, Message>, s: set<Pk>): set<Pk> {
    set k | k in ms && ms[k].parentMessage.Some? && ms[k].parentMessage.value in s
  }

  /** Deleting every message of `s` leaves no reply without its parent. */
  predicate ClosedUnderReplies(ms: map<Pk, Message>, s: set<Pk>) {
    RepliesTo(ms, s) <= s
  }

  lemma StrictSubsetCard(a: set<Pk>, b: set<Pk>, x: Pk)
    requires a <= b && x in b && x !in a
    ensures |a| < |b|
  {
    var c := a + {x};
    assert b == c + (b - c);
    assert |c| == |a| + 1;
  }

  /** The messages a delete of `roots` removes: the roots and, through the
      CASCADE on `parent_message`, their replies, their replies' replies and
      so on. Nothing stops a parent chain from looping back, so this is a
      fixpoint over sets, not a walk down a tree. */
  function CascadeClosure(ms: map<Pk, Message>, roots: set<Pk>): (d: set<Pk>)
    requires roots <= ms.Keys
    ensures roots <= d <= ms.Keys
    ensures ClosedUnderReplies(ms, d)
    decreases |ms.Keys - roots|
  {
    var next := RepliesTo(ms, roots);
    if next <= roots then roots
    else
      var x :| x in next && x !in roots;
      StrictSubsetCard(ms.Keys - (roots + next), ms.Keys - roots, x);
      CascadeClosure(ms, roots + next)
  }

  /** The cascade removes nothing it does not have to: it lies inside every
      reply-closed set that holds the roots. */
  lemma {:induction false} CascadeClosureLeast(ms: map<Pk, Message>, roots: set<Pk>, s: set<Pk>)
    requires roots <= ms.Keys
    requires roots <= s && ClosedUnderReplies(ms, s)
    ensures CascadeClosure(ms, roots) <= s
    decreases |ms.Keys - roots|
  {
    var next := RepliesTo(ms, roots);
    if !(next <= roots) {
      var x :| x in next && x !in roots;
      StrictSubsetCard(ms.Keys - (roots + next), ms.Keys - roots, x);
      assert next <= RepliesTo(ms, s);
      CascadeClosureLeast(ms, roots + next, s);
    }
  }

  /** Deleting nothing cascades to nothing. */
  lemma CascadeClosureEmpty(ms: map<Pk, Message>)
    ensures CascadeClosure(ms, {}) == {}
  {
    CascadeClosureLeast(ms, {}, {});
  }

  // ---------------------------------------------------------------------
  // Deleting rows, with the schema's on_delete rules

  function HistoryNotAbout(d: set<Pk>): MessageHistory -> bool {
    (h: MessageHistory) => h.message !in d
  }

  function NotificationNotAbout(d: set<Pk>): Notification -> bool {
    (n: Notification) => !(n.message.Some? && n.message.value in d)
  }

  /** `Message.objects.filter(pk__in=roots).delete()`: the messages in
      `roots` are deleted together with, by CASCADE, their replies (to any
      depth), the history rows of every deleted message and the
      notifications that reference one. */
  function WithMessagesDeleted(t: Tables, roots: set<Pk>): (r: Tables)
    ensures r.users == t.users
    ensures r.messages.Keys <= t.messages.Keys - roots
    ensures forall k :: k in r.messages ==> r.messages[k] == t.messages[k]
    ensures |r.history| <= |t.history|
  {
    var d := CascadeClosure(t.messages, roots * t.messages.Keys);
    Tables(t.users,
           t.messages - d,
           Filter(t.history, HistoryNotAbout(d)),
           FilterMap(t.notifications, NotificationNotAbout(d)))
  }

  /** What a message delete removes is exactly the cascade: a message
      survives unless a chain of `parent_message` links leads from it to a
      root, and surviving rows never point at a deleted message. */
  lemma WithMessagesDeletedSpec(t: Tables, roots: set<Pk>, s: set<Pk>)
    requires roots * t.messages.Keys <= s && ClosedUnderReplies(t.messages, s)
    ensures var r := WithMessagesDeleted(t, roots);
      && t.messages.Keys - s <= r.messages.Keys
      && (forall k :: k in r.messages && r.messages[k].parentMessage.Some? ==>
            r.messages[k].parentMessage.value !in t.messages ||
            r.messages[k].parentMessage.value in r.messages)
      && (forall h :: h in r.history <==>
            h in t.history && h.message !in t.messages - r.messages.Keys)
      && (forall k :: k in r.notifications <==>
            k in t.notifications &&
            !(t.notifications[k].message.Some? &&
              t.notifications[k].message.value in t.messages - r.messages.Keys))
      && (forall k :: k in r.notifications ==> r.notifications[k] == t.notifications[k])
  {
    var d := CascadeClosure(t.messages, roots * t.messages.Keys);
    CascadeClosureLeast(t.messages, roots * t.messages.Keys, s);
    FilterMembers(t.history, HistoryNotAbout(d));
  }

  /** Deleting messages keeps every foreign key pointing at a row. */
  lemma WithMessagesDeletedConsistent(t: Tables, roots: set<Pk>)
    requires Consistent(t)
    ensures Consistent(WithMessagesDeleted(t, roots))
  {
    var d := CascadeClosure(t.messages, roots * t.messages.Keys);
    var r := WithMessagesDeleted(t, roots);
    FilterMembers(t.history, HistoryNotAbout(d));
    forall k | k in r.messages
      ensures MessageRefsOk(r.messages[k], r.users, r.messages.Keys)
    {
      var m := t.messages[k];
      assert MessageRefsOk(m, t.users, t.messages.Keys);
    }
  }

  function SentBy(ms: map<Pk, Message>, u: UserId): set<Pk> {
    set k | k in ms && ms[k].sender == u
  }

  function HistoryNotEditedBy(u: UserId): MessageHistory -> bool {
    (h: MessageHistory) => h.editedBy != u
  }

  function NotificationNotTo(u: UserId): Notification -> bool {
    (n: Notification) => n.recipient != Some(u)
  }

  /** SET_NULL on `Message.receiver`. */
  function NullReceiver(ms: map<Pk, Message>, u: UserId): (r: map<Pk, Message>)
    ensures r.Keys == ms.Keys
    ensures forall k :: k in r ==> r[k].receiver != Some(u) && r[k] == ms[k].(receiver := r[k].receiver)
    ensures forall k :: k in r && ms[k].receiver != Some(u) ==> r[k] == ms[k]
  {
    map k | k in ms :: if ms[k].receiver == Some(u) then ms[k].(receiver := None) else ms[k]
  }

  /** SET_NULL on `Notification.sender`. */
  function NullNotificationSender(ns: map<NotificationId, Notification>, u: UserId)
    : (r: map<NotificationId, Notification>)
    ensures r.Keys == ns.Keys
    ensures forall k :: k in r ==> r[k].sender != Some(u) && r[k] == ns[k].(sender := r[k].sender)
    ensures forall k :: k in r && ns[k].sender != Some(u) ==> r[k] == ns[k]
  {
    map k | k in ns :: if ns[k].sender == Some(u) then ns[k].(sender := None) else ns[k]
  }

  /** `user.delete()` as the store carries it out: the user's row goes, and
      with it, by CASCADE, the messages they sent (and everything those
      cascade to), the history rows they edited and the notifications
      addressed to them; by SET_NULL, the messages they received lose their
      receiver and the notifications they sent lose their sender. */
  function OnDeleteUser(t: Tables, u: UserId): (r: Tables)
    ensures r.users == t.users - {u}
  {
    var d := CascadeClosure(t.messages, SentBy(t.messages, u));
    Tables(t.users - {u},
           NullReceiver(t.messages - d, u),
           Filter(Filter(t.history, HistoryNotAbout(d)), HistoryNotEditedBy(u)),
           NullNotificationSender(
             FilterMap(FilterMap(t.notifications, NotificationNotAbout(d)), NotificationNotTo(u)), u))
  }

  lemma OnDeleteUserMessagesClean(t: Tables, u: UserId)
    requires Consistent(t)
    ensures var r := OnDeleteUser(t, u);
      forall k :: k in r.messages ==>
        MessageRefsOk(r.messages[k], r.users, r.messages.Keys) &&
        r.messages[k].sender != u && r.messages[k].receiver != Some(u)
  {
    var r := OnDeleteUser(t, u);
    forall k | k in r.messages
      ensures MessageRefsOk(r.messages[k], r.users, r.messages.Keys)
      ensures r.messages[k].sender != u
    {
      assert MessageRefsOk(t.messages[k], t.users, t.messages.Keys);
      assert k !in SentBy(t.messages, u);
    }
  }

  lemma OnDeleteUserHistoryClean(t: Tables, u: UserId)
    requires Consistent(t)
    ensures var r := OnDeleteUser(t, u);
      forall h :: h in r.history ==>
        h.message in r.messages && h.editedBy in r.users && h.editedBy != u
  {
    var d := CascadeClosure(t.messages, SentBy(t.messages, u));
    FilterMembers(t.history, HistoryNotAbout(d));
    FilterMembers(Filter(t.history, HistoryNotAbout(d)), HistoryNotEditedBy(u));
  }

  lemma OnDeleteUserNotificationsClean(t: Tables, u: UserId)
    requires Consistent(t)
    ensures var r := OnDeleteUser(t, u);
      forall k :: k in r.notifications ==>
        NotificationRefsOk(r.notifications[k], r.users, r.messages.Keys) &&
        r.notifications[k].recipient != Some(u) && r.notifications[k].sender != Some(u)
  {
    var r := OnDeleteUser(t, u);
    forall k | k in r.notifications
      ensures NotificationRefsOk(r.notifications[k], r.users, r.messages.Keys)
    {
      assert NotificationRefsOk(t.notifications[k], t.users, t.messages.Keys);
    }
  }

  /** After the on_delete rules of a user delete, the tables are consistent
      and no row names the deleted user. */
  lemma OnDeleteUserClean(t: Tables, u: UserId)
    requires Consistent(t)
    ensures Consistent(OnDeleteUser(t, u))
    ensures NoReferenceTo(OnDeleteUser(t, u), u)
  {
    OnDeleteUserMessagesClean(t, u);
    OnDeleteUserHistoryClean(t, u);
    OnDeleteUserNotificationsClean(t, u);
  }

  /** Exactly what the `on_delete` rules of a user delete keep: the
      messages outside the cascade of the messages the user sent, with a
      receiver equal to the user set to NULL; the history rows neither
      edited by the user nor about a deleted message; and the notifications
      neither addressed to the user nor about a deleted message, with a
      sender equal to the user set to NULL. */
  lemma OnDeleteUserSpec(t: Tables, u: UserId)
    ensures var r := OnDeleteUser(t, u);
      var d := CascadeClosure(t.messages, SentBy(t.messages, u));
      && (forall k :: k in r.messages <==> k in t.messages && k !in d)
      && (forall k :: k in r.messages ==>
            r.messages[k] == t.messages[k].(receiver :=
              if t.messages[k].receiver == Some(u) then None else t.messages[k].receiver))
      && (forall h :: h in r.history <==> h in t.history && h.editedBy != u && h.message !in d)
      && (forall k :: k in r.notifications <==>
            k in t.notifications && t.notifications[k].recipient != Some(u) &&
            !(t.notifications[k].message.Some? && t.notifications[k].message.value in d))
      && (forall k :: k in r.notifications ==>
            r.notifications[k] == t.notifications[k].(sender :=
              if t.notifications[k].sender == Some(u) then None else t.notifications[k].sender))
  {
    var d := CascadeClosure(t.messages, SentBy(t.messages, u));
    FilterMembers(t.history, HistoryNotAbout(d));
    FilterMembers(Filter(t.history, HistoryNotAbout(d)), HistoryNotEditedBy(u));
  }

  /** The sent/received asymmetry of a user delete: a message the user sent
      is gone, while a message they received (and that does not reply, at
      any depth, to one they sent) stays with its receiver set to NULL. */
  lemma OnDeleteUserSentVersusReceived(t: Tables, u: UserId, k: Pk)
    requires k in t.messages
    ensures t.messages[k].sender == u ==> k !in OnDeleteUser(t, u).messages
    ensures t.messages[k].receiver == Some(u) && k !in CascadeClosure(t.messages, SentBy(t.messages, u)) ==>
      k in OnDeleteUser(t, u).messages &&
      OnDeleteUser(t, u).messages[k] == t.messages[k].(receiver := None)
  {
  }
}
