/** The store and the three signal handlers that keep its derived rows in
    step with the messages and users: `edit_message` (pre_save on a
    message) writes an edit-history row, `new_message` (post_save) writes a
    notification, and `user_data_cleanup` (post_delete on a user) deletes
    the user's rows. The store's own `on_delete` rules run alongside. */
module Signals {
  import opened Wrappers
  import opened Collections
  import opened Models

  /** `Message.DoesNotExist`, raised by `Message.objects.get`. */
  datatype SaveError = DoesNotExist

  // ---------------------------------------------------------------------
  // user_data_cleanup as a function of the tables

  function SentOrReceivedBy(ms: map<Pk, Message>, u: UserId): (s: set<Pk>)
    ensures s <= ms.Keys
    ensures forall k :: k in ms ==> (k in s <==> ms[k].sender == u || ms[k].receiver == Some(u))
  {
    set k | k in ms && (ms[k].sender == u || ms[k].receiver == Some(u))
  }

  function NotificationNotInvolving(u: UserId): Notification -> bool {
    (n: Notification) => n.recipient != Some(u) && n.sender != Some(u)
  }

  /** The three filtered deletes of `user_data_cleanup`, in order: the
      messages `u` sent or received (each delete cascading as the schema
      says), the history rows `u` edited, and the notifications `u` receives
      or sent. */
  function CleanupFilters(t: Tables, u: UserId): (r: Tables)
    ensures r.users == t.users
    ensures NoReferenceTo(r, u)
  {
    var afterMessages := WithMessagesDeleted(t, SentOrReceivedBy(t.messages, u));
    FilterMembers(afterMessages.history, HistoryNotEditedBy(u));
    var afterHistory :=
      afterMessages.(history := Filter(afterMessages.history, HistoryNotEditedBy(u)));
    afterHistory.(notifications :=
      FilterMap(afterHistory.notifications, NotificationNotInvolving(u)))
  }

  /** Exactly what the handler keeps: after the message delete, the history
      rows the user did not edit and the notifications neither to nor from
      the user, each unchanged. */
  lemma CleanupFiltersSpec(t: Tables, u: UserId)
    ensures var afterMessages := WithMessagesDeleted(t, SentOrReceivedBy(t.messages, u));
      var r := CleanupFilters(t, u);
      && r.messages == afterMessages.messages
      && (forall h :: h in r.history <==> h in afterMessages.history && h.editedBy != u)
      && (forall k :: k in r.notifications <==>
            k in afterMessages.notifications &&
            afterMessages.notifications[k].recipient != Some(u) &&
            afterMessages.notifications[k].sender != Some(u))
      && (forall k :: k in r.notifications ==>
            r.notifications[k] == afterMessages.notifications[k])
  {
    var afterMessages := WithMessagesDeleted(t, SentOrReceivedBy(t.messages, u));
    FilterMembers(afterMessages.history, HistoryNotEditedBy(u));
  }

  /** The handler's message filter matches only messages that `u` sent or
      received; any other message survives unchanged unless it replies, at
      some depth, to a matched one, and then the CASCADE on
      `parent_message` removes it with its history and notifications. */
  lemma CleanupMessageScope(t: Tables, u: UserId, k: Pk)
    requires k in t.messages
    ensures var d := CascadeClosure(t.messages, SentOrReceivedBy(t.messages, u));
      && (t.messages[k].sender == u || t.messages[k].receiver == Some(u) ==> k in d)
      && (k in CleanupFilters(t, u).messages <==> k !in d)
      && (k !in d ==> CleanupFilters(t, u).messages[k] == t.messages[k])
  {
    var roots := SentOrReceivedBy(t.messages, u);
    assert roots * t.messages.Keys == roots;
  }

  /** Deleting no message changes nothing. */
  lemma WithNoMessagesDeleted(t: Tables)
    ensures WithMessagesDeleted(t, {}) == t
  {
    var none: set<Pk> := {};
    assert none * t.messages.Keys == none;
    CascadeClosureEmpty(t.messages);
    assert t.messages - none == t.messages;
    FilterAllKept(t.history, HistoryNotAbout({}));
    assert FilterMap(t.notifications, NotificationNotAbout({})) == t.notifications;
  }

  /** On tables where no row names `u`, the handler's filters match
      nothing. */
  lemma CleanupOfUnreferencedIsNoOp(t: Tables, u: UserId)
    requires NoReferenceTo(t, u)
    ensures CleanupFilters(t, u) == t
  {
    assert SentOrReceivedBy(t.messages, u) == {};
    WithNoMessagesDeleted(t);
    forall i | 0 <= i < |t.history| ensures HistoryNotEditedBy(u)(t.history[i]) {
      assert t.history[i] in t.history;
    }
    FilterAllKept(t.history, HistoryNotEditedBy(u));
    assert FilterMap(t.notifications, NotificationNotInvolving(u)) == t.notifications;
  }

  /** On tables the `on_delete` rules have already cleaned, the handler's
      explicit deletes find nothing to delete. */
  lemma CleanupAfterOnDeleteIsNoOp(t: Tables, u: UserId)
    requires Consistent(t)
    ensures CleanupFilters(OnDeleteUser(t, u), u) == OnDeleteUser(t, u)
  {
    OnDeleteUserClean(t, u);
    CleanupOfUnreferencedIsNoOp(OnDeleteUser(t, u), u);
  }

  // ---------------------------------------------------------------------
  // edit_message replayed over successive saves of one message

  /** The contents a message passes through, each run of equal neighbours
      collapsed into one: its edit sequence. */
  function Runs(s: seq<string>): (r: seq<string>)
    ensures |r| <= |s|
    ensures s != [] ==> r != [] && r[0] == s[0]
    ensures forall i :: 0 <= i < |r| - 1 ==> r[i] != r[i + 1]
  {
    if |s| <= 1 then s
    else if s[0] == s[1] then Runs(s[1..])
    else [s[0]] + Runs(s[1..])
  }

  /** The number of places where a content sequence changes from one
      element to the next. */
  function Changes(s: seq<string>): nat {
    if |s| <= 1 then 0
    else (if s[0] != s[1] then 1 else 0) + Changes(s[1..])
  }

  /** Collapsing runs leaves one element more than there are changes. */
  lemma {:induction false} RunsCountChanges(s: seq<string>)
    requires s != []
    ensures |Runs(s)| == Changes(s) + 1
  {
    if |s| > 1 {
      RunsCountChanges(s[1..]);
    }
  }

  /** The history contents `edit_message` writes when a message holding
      `current` is saved with each content of `saves` in turn. */
  function Snapshots(current: string, saves: seq<string>): seq<string>
    decreases saves
  {
    if saves == [] then []
    else (if saves[0] != current then [current] else []) + Snapshots(saves[0], saves[1..])
  }

  /** The `edited` flag after those saves, starting from `edited`. */
  function EditedAfter(edited: bool, current: string, saves: seq<string>): bool
    decreases saves
  {
    if saves == [] then edited
    else EditedAfter(edited || saves[0] != current, saves[0], saves[1..])
  }

  /** The content after those saves. */
  function LastContent(current: string, saves: seq<string>): string {
    if saves == [] then current else saves[|saves| - 1]
  }

  /** The history rows, oldest first, followed by the current content
      reconstruct the message's whole edit sequence. */
  lemma {:induction false} SnapshotsReconstructEdits(current: string, saves: seq<string>)
    ensures Snapshots(current, saves) + [LastContent(current, saves)] == Runs([current] + saves)
    decreases saves
  {
    if saves != [] {
      SnapshotsReconstructEdits(saves[0], saves[1..]);
      assert ([current] + saves)[1..] == [saves[0]] + saves[1..];
      assert LastContent(current, saves) == LastContent(saves[0], saves[1..]);
    }
  }

  /** So the number of history rows is the number of saves that changed
      the content. */
  lemma SnapshotsCountChanges(current: string, saves: seq<string>)
    ensures |Snapshots(current, saves)| == Changes([current] + saves)
  {
    SnapshotsReconstructEdits(current, saves);
    RunsCountChanges([current] + saves);
  }

  lemma {:induction false} SnapshotsAppend(current: string, a: seq<string>, b: seq<string>)
    ensures Snapshots(current, a + b) == Snapshots(current, a) + Snapshots(LastContent(current, a), b)
    decreases a
  {
    if a == [] {
      assert a + b == b;
    } else {
      assert (a + b)[1..] == a[1..] + b;
      SnapshotsAppend(a[0], a[1..], b);
    }
  }

  /** Saving the content a message already holds writes no history: a
      repeated save is a no-op. */
  lemma RepeatedSaveIsNoOp(current: string, saves: seq<string>, x: string)
    ensures Snapshots(current, saves + [x, x]) == Snapshots(current, saves + [x])
  {
    SnapshotsAppend(current, saves + [x], [x]);
    assert saves + [x, x] == (saves + [x]) + [x];
  }

  /** A message that starts unedited is flagged edited exactly when some
      save changed its content, that is, when it has history. */
  lemma {:induction false} EditedIffHistory(edited: bool, current: string, saves: seq<string>)
    ensures EditedAfter(edited, current, saves) <==> edited || Snapshots(current, saves) != []
    decreases saves
  {
    if saves != [] {
      EditedIffHistory(edited || saves[0] != current, saves[0], saves[1..]);
    }
  }

  /** One more save extends the history by the old content exactly when it
      changes the content. */
  lemma SnapshotsStep(current: string, saves: seq<string>, x: string)
    ensures Snapshots(current, saves + [x]) ==
      Snapshots(current, saves) +
      (if x != LastContent(current, saves) then [LastContent(current, saves)] else [])
  {
    SnapshotsAppend(current, saves, [x]);
  }

  /** One more save flags the message edited exactly when it was flagged
      already or the save changes the content. */
  lemma {:induction false} EditedAfterStep(edited: bool, current: string, saves: seq<string>, x: string)
    ensures EditedAfter(edited, current, saves + [x]) ==
      (EditedAfter(edited, current, saves) || x != LastContent(current, saves))
    decreases saves
  {
    if saves != [] {
      assert (saves + [x])[1..] == saves[1..] + [x];
      EditedAfterStep(edited || saves[0] != current, saves[0], saves[1..], x);
    }
  }

  /** The stored message after its content is saved as each of `saves` in
      turn. */
  function Replayed(m: Message, saves: seq<string>): (r: Message)
    ensures r.sender == m.sender && r.receiver == m.receiver
    ensures r.timestamp == m.timestamp && r.parentMessage == m.parentMessage
    ensures r.isRead == m.isRead
  {
    m.(content := LastContent(m.content, saves),
       edited := EditedAfter(m.edited, m.content, saves))
  }

  /** The replay of a nonempty run of saves is its first save followed by
      the replay of the rest. */
  lemma ReplayFront(m: Message, saves: seq<string>)
    requires saves != []
    ensures var m1 := m.(content := saves[0], edited := m.edited || saves[0] != m.content);
      && Replayed(m, saves) == Replayed(m1, saves[1..])
      && Snapshots(m.content, saves) ==
           (if saves[0] != m.content then [m.content] else []) + Snapshots(saves[0], saves[1..])
  {
  }

  /** `hs` are the history rows about message `id`, edited by `sender`,
      holding `contents` in order. */
  predicate Records(hs: seq<MessageHistory>, id: Pk, sender: UserId, contents: seq<string>) {
    && |hs| == |contents|
    && forall i :: 0 <= i < |hs| ==>
         hs[i].message == id && hs[i].content == contents[i] && hs[i].editedBy == sender
  }

  lemma RecordsAppend(a: seq<MessageHistory>, b: seq<MessageHistory>, id: Pk, sender: UserId,
                      ca: seq<string>, cb: seq<string>)
    requires Records(a, id, sender, ca) && Records(b, id, sender, cb)
    ensures Records(a + b, id, sender, ca + cb)
  {
  }

  /** One edit followed by the replay of the remaining saves is the replay
      of all of them, for the message table and for the history. */
  lemma ComposeSaves(ms0: map<Pk, Message>, ms1: map<Pk, Message>, ms2: map<Pk, Message>,
                     h0: seq<MessageHistory>, h1: seq<MessageHistory>, h2: seq<MessageHistory>,
                     id: Pk, contents: seq<string>, now: Timestamp)
    requires contents != [] && id in ms0
    requires ms1 == ms0[id := ms0[id].(content := contents[0],
                                        edited := ms0[id].edited || contents[0] != ms0[id].content)]
    requires h1 == h0 + (if contents[0] != ms0[id].content
                         then [MessageHistory(id, ms0[id].content, now, ms0[id].sender)] else [])
    requires ms2 == ms1[id := Replayed(ms1[id], contents[1..])]
    requires |h1| <= |h2| && h2[..|h1|] == h1
    requires Records(h2[|h1|..], id, ms1[id].sender, Snapshots(ms1[id].content, contents[1..]))
    ensures ms2 == ms0[id := Replayed(ms0[id], contents)]
    ensures |h0| <= |h2| && h2[..|h0|] == h0
    ensures Records(h2[|h0|..], id, ms0[id].sender, Snapshots(ms0[id].content, contents))
  {
    var m0 := ms0[id];
    ReplayFront(m0, contents);
    var first := h1[|h0|..];
    var rest := h2[|h1|..];
    assert h2 == h1 + rest;
    assert h2[|h0|..] == first + rest;
    RecordsAppend(first, rest, id, m0.sender,
                  if contents[0] != m0.content then [m0.content] else [],
                  Snapshots(contents[0], contents[1..]));
  }

  // ---------------------------------------------------------------------
  // new_message

  /** The notifications that reference message `m`. */
  function NotificationsAbout(ns: map<NotificationId, Notification>, m: Pk): set<NotificationId> {
    set k | k in ns && ns[k].message == Some(m)
  }

  /** Adding a notification about `m` under a fresh key adds exactly that
      key to the notifications about `m`, and to no other message's. */
  lemma NotificationFanOut(ns: map<NotificationId, Notification>, k: NotificationId, n: Notification, m: Pk)
    requires k !in ns
    ensures n.message == Some(m) ==> NotificationsAbout(ns[k := n], m) == NotificationsAbout(ns, m) + {k}
    ensures n.message != Some(m) ==> NotificationsAbout(ns[k := n], m) == NotificationsAbout(ns, m)
  {
  }

  // ---------------------------------------------------------------------
  // The store

  /** The database: the four tables, the auto-increment counter of the
      message table, the source of fresh notification ids and the clock
      that `auto_now_add` reads. */
  class Store {
    var users: set<UserId>
    var messages: map<Pk, Message>
    var history: seq<MessageHistory>
    var notifications: map<NotificationId, Notification>
    var nextPk: Pk
    var nextNotificationId: NotificationId
    var clock: Timestamp

    ghost function State(): Tables
      reads this
    {
      Tables(users, messages, history, notifications)
    }

    /** Every foreign key resolves, and keys yet to be handed out are fresh. */
    ghost predicate Valid()
      reads this
    {
      && Consistent(State())
      && (forall k :: k in messages ==> k < nextPk)
      && (forall k :: k in notifications ==> k < nextNotificationId)
    }

    constructor ()
      ensures Valid()
      ensures State() == Tables({}, map[], [], map[])
    {
      users, messages, history, notifications := {}, map[], [], map[];
      nextPk, nextNotificationId, clock := 1, 0, 0;
    }

    /** A user row is created outside this core. */
    method AddUser(u: UserId)
      requires Valid()
      modifies this
      ensures Valid()
      ensures State() == old(State()).(users := old(users) + {u})
      ensures nextPk == old(nextPk) && nextNotificationId == old(nextNotificationId)
      ensures clock == old(clock)
    {
      users := users + {u};
    }

    /** `edit_message`, the pre_save handler: for an object already saved,
        it reads the stored row and, when the content differs, appends one
        history row holding the stored (old) content, edited by the
        object's sender, and sets the object's `edited` flag. It returns
        the object as it leaves it. */
    method EditMessage(instance: MessageInstance) returns (r: Result<MessageInstance, SaveError>)
      requires Valid()
      requires instance.sender in users
      modifies this
      ensures Valid()
      ensures users == old(users) && messages == old(messages)
      ensures notifications == old(notifications)
      ensures nextPk == old(nextPk) && nextNotificationId == old(nextNotificationId)
      ensures instance.pk == None ==>
        r == Ok(instance) && history == old(history) && clock == old(clock)
      ensures instance.pk.Some? && instance.pk.value !in old(messages) ==>
        r == Err(DoesNotExist) && history == old(history) && clock == old(clock)
      ensures instance.pk.Some? && instance.pk.value in old(messages) ==>
        var previous := old(messages)[instance.pk.value];
        if previous.content != instance.content then
          && history == old(history) +
               [MessageHistory(instance.pk.value, previous.content, old(clock), instance.sender)]
          && r == Ok(instance.(edited := true))
          && clock == old(clock) + 1
        else
          history == old(history) && r == Ok(instance) && clock == old(clock)
    {
      if instance.pk.Some? {
        if instance.pk.value !in messages {
          return Err(DoesNotExist);
        }
        var previous := messages[instance.pk.value];
        if previous.content != instance.content {
          history := history +
            [MessageHistory(instance.pk.value, previous.content, clock, instance.sender)];
          clock := clock + 1;
          return Ok(instance.(edited := true));
        }
      }
      return Ok(instance);
    }

    /** `new_message`, the post_save handler: when the save inserted the
        row, one notification referencing the message is created. */
    method NewMessage(m: Pk, created: bool)
      requires Valid() && m in messages
      modifies this
      ensures Valid()
      ensures users == old(users) && messages == old(messages) && history == old(history)
      ensures nextPk == old(nextPk)
      ensures created ==>
        && notifications == old(notifications)[old(nextNotificationId) := MessageNotification(m, old(clock))]
        && NotificationsAbout(notifications, m) == NotificationsAbout(old(notifications), m) + {old(nextNotificationId)}
        && nextNotificationId == old(nextNotificationId) + 1
        && clock == old(clock) + 1
      ensures !created ==>
        notifications == old(notifications) && nextNotificationId == old(nextNotificationId) &&
        clock == old(clock)
    {
      if created {
        NotificationFanOut(notifications, nextNotificationId, MessageNotification(m, clock), m);
        notifications := notifications[nextNotificationId := MessageNotification(m, clock)];
        nextNotificationId := nextNotificationId + 1;
        clock := clock + 1;
      }
    }

    /** `save()` on a message: the pre_save handler, the INSERT (for an
        object without a key) or UPDATE (for one with a key), then the
        post_save handler. A key with no stored row makes the pre_save
        handler raise, and nothing is written. */
    method SaveMessage(instance: MessageInstance) returns (r: Result<Pk, SaveError>)
      requires Valid()
      requires instance.sender in users
      requires instance.receiver.Some? ==> instance.receiver.value in users
      requires instance.parentMessage.Some? ==> instance.parentMessage.value in messages
      modifies this
      ensures Valid()
      ensures users == old(users)
      ensures instance.pk == None ==>
        && r == Ok(old(nextPk))
        && messages == old(messages)[old(nextPk) := InsertedRow(instance, old(clock))]
        && history == old(history)
        && notifications == old(notifications)[old(nextNotificationId) :=
             MessageNotification(old(nextPk), old(clock) + 1)]
        && NotificationsAbout(notifications, old(nextPk)) == {old(nextNotificationId)}
      ensures instance.pk.Some? && instance.pk.value !in old(messages) ==>
        r == Err(DoesNotExist) && State() == old(State())
      ensures instance.pk.Some? && instance.pk.value in old(messages) ==>
        var id := instance.pk.value;
        var previous := old(messages)[id];
        var changed := previous.content != instance.content;
        && r == Ok(id)
        && messages == old(messages)[id := UpdatedRow(previous, instance.(edited := instance.edited || changed))]
        && history == old(history) +
             (if changed then [MessageHistory(id, previous.content, old(clock), instance.sender)] else [])
        && notifications == old(notifications)
    {
      var hooked := EditMessage(instance);
      if hooked.Err? {
        return Err(hooked.error);
      }
      var inst := hooked.value;
      var created := inst.pk == None;
      var id: Pk;
      if created {
        id := InsertRow(inst);
      } else {
        id := inst.pk.value;
        UpdateRow(id, inst);
      }
      NewMessage(id, created);
      r := Ok(id);
    }

    /** The INSERT of a save: the row gets the next key and the clock's
        reading. */
    method InsertRow(inst: MessageInstance) returns (id: Pk)
      requires Valid()
      requires inst.sender in users
      requires inst.receiver.Some? ==> inst.receiver.value in users
      requires inst.parentMessage.Some? ==> inst.parentMessage.value in messages
      modifies this
      ensures Valid()
      ensures id == old(nextPk) && id !in old(messages)
      ensures messages == old(messages)[id := InsertedRow(inst, old(clock))]
      ensures users == old(users) && history == old(history) && notifications == old(notifications)
      ensures NotificationsAbout(notifications, id) == {}
      ensures nextNotificationId == old(nextNotificationId) && clock == old(clock) + 1
    {
      id := nextPk;
      assert NotificationsAbout(notifications, id) == {} by {
        forall k | k in notifications ensures notifications[k].message != Some(id) {
          assert NotificationRefsOk(notifications[k], users, messages.Keys);
        }
      }
      messages := messages[id := InsertedRow(inst, clock)];
      nextPk := nextPk + 1;
      clock := clock + 1;
    }

    /** The UPDATE of a save: every column but the `auto_now_add` timestamp
        is overwritten from the object. */
    method UpdateRow(id: Pk, inst: MessageInstance)
      requires Valid() && id in messages
      requires inst.sender in users
      requires inst.receiver.Some? ==> inst.receiver.value in users
      requires inst.parentMessage.Some? ==> inst.parentMessage.value in messages
      modifies this
      ensures Valid()
      ensures messages == old(messages)[id := UpdatedRow(old(messages)[id], inst)]
      ensures users == old(users) && history == old(history) && notifications == old(notifications)
      ensures nextPk == old(nextPk) && nextNotificationId == old(nextNotificationId)
      ensures clock == old(clock)
    {
      messages := messages[id := UpdatedRow(messages[id], inst)];
    }

    /** One edit of the stored message `id`: load the row, set its content
        to `content` and call `save()`. */
    method SaveContent(id: Pk, content: string)
      requires Valid() && id in messages
      modifies this
      ensures Valid()
      ensures users == old(users) && notifications == old(notifications)
      ensures messages == old(messages)[id := old(messages)[id].(
        content := content,
        edited := old(messages)[id].edited || content != old(messages)[id].content)]
      ensures history == old(history) +
        (if content != old(messages)[id].content
         then [MessageHistory(id, old(messages)[id].content, old(clock), old(messages)[id].sender)]
         else [])
    {
      var stored := messages[id];
      assert MessageRefsOk(stored, users, messages.Keys);
      var r := SaveMessage(MessageInstance(Some(id), stored.sender, stored.receiver,
                                           content, stored.edited, stored.isRead,
                                           stored.parentMessage));
    }

    /** Successive edits of the stored message `id`, one per element of
        `contents`. The history rows written are the replayed snapshots,
        each naming the message and its sender, and the stored message ends
        as the replay says. */
    method SaveContents(id: Pk, contents: seq<string>)
      requires Valid() && id in messages
      modifies this
      ensures Valid()
      ensures users == old(users) && notifications == old(notifications)
      ensures messages == old(messages)[id := Replayed(old(messages)[id], contents)]
      ensures |old(history)| <= |history| && history[..|old(history)|] == old(history)
      ensures Records(history[|old(history)|..], id, old(messages)[id].sender,
                      Snapshots(old(messages)[id].content, contents))
      ensures |history| == |old(history)| + Changes([old(messages)[id].content] + contents)
      decreases contents
    {
      if contents == [] {
        assert history[|old(history)|..] == [];
        return;
      }
      ghost var ms0, h0, now := messages, history, clock;
      SaveContent(id, contents[0]);
      ghost var ms1, h1 := messages, history;
      SaveContents(id, contents[1..]);
      ComposeSaves(ms0, ms1, messages, h0, h1, history, id, contents, now);
      SnapshotsCountChanges(ms0[id].content, contents);
    }

    /** `Message.objects.create(...)`: a save of a new object whose
        `edited` and `is_read` take their defaults. */
    method CreateMessage(sender: UserId, receiver: Option<UserId>, content: string,
                         parentMessage: Option<Pk>) returns (id: Pk)
      requires Valid()
      requires sender in users
      requires receiver.Some? ==> receiver.value in users
      requires parentMessage.Some? ==> parentMessage.value in messages
      modifies this
      ensures Valid()
      ensures id !in old(messages) && messages.Keys == old(messages).Keys + {id}
      ensures messages[id] == Message(sender, receiver, content, false, false, old(clock), parentMessage)
      ensures forall k :: k in old(messages) ==> messages[k] == old(messages)[k]
      ensures users == old(users) && history == old(history)
      ensures exists k: NotificationId ::
        && k !in old(notifications)
        && notifications == old(notifications)[k := MessageNotification(id, old(clock) + 1)]
        && NotificationsAbout(notifications, id) == {k}
    {
      ghost var key := nextNotificationId;
      assert key !in notifications;
      var r := SaveMessage(NewInstance(sender, receiver, content, parentMessage));
      id := r.value;
      assert key !in old(notifications) &&
        notifications == old(notifications)[key := MessageNotification(id, old(clock) + 1)] &&
        NotificationsAbout(notifications, id) == {key};
    }

    /** A delete of the messages `roots` (a queryset `.delete()` or a
        message's own `.delete()`), with the schema's CASCADE rules. */
    method DeleteMessages(roots: set<Pk>)
      requires Valid()
      modifies this
      ensures Valid()
      ensures State() == WithMessagesDeleted(old(State()), roots)
      ensures nextPk == old(nextPk) && nextNotificationId == old(nextNotificationId)
      ensures clock == old(clock)
    {
      WithMessagesDeletedConsistent(State(), roots);
      var doomed := CascadeClosure(messages, roots * messages.Keys);
      messages := messages - doomed;
      history := Filter(history, HistoryNotAbout(doomed));
      notifications := FilterMap(notifications, NotificationNotAbout(doomed));
    }

    /** `user_data_cleanup`, the post_delete handler on a user. */
    method UserDataCleanup(u: UserId)
      requires Valid()
      modifies this
      ensures Valid()
      ensures State() == CleanupFilters(old(State()), u)
      ensures NoReferenceTo(State(), u)
      ensures nextPk == old(nextPk) && nextNotificationId == old(nextNotificationId)
      ensures clock == old(clock)
    {
      DeleteMessages(SentOrReceivedBy(messages, u));
      FilterMembers(history, HistoryNotEditedBy(u));
      history := Filter(history, HistoryNotEditedBy(u));
      notifications := FilterMap(notifications, NotificationNotInvolving(u));
    }

    /** `user.delete()`: the store applies the schema's `on_delete` rules
        and removes the user's row, then the post_delete handler runs. */
    method DeleteUser(u: UserId)
      requires Valid()
      modifies this
      ensures Valid()
      ensures State() == OnDeleteUser(old(State()), u)
      ensures u !in users && NoReferenceTo(State(), u)
      ensures nextPk == old(nextPk) && nextNotificationId == old(nextNotificationId)
      ensures clock == old(clock)
    {
      ghost var before := State();
      OnDeleteUserClean(before, u);
      CleanupAfterOnDeleteIsNoOp(before, u);
      var doomed := CascadeClosure(messages, SentBy(messages, u));
      messages := NullReceiver(messages - doomed, u);
      history := Filter(Filter(history, HistoryNotAbout(doomed)), HistoryNotEditedBy(u));
      notifications := NullNotificationSender(
        FilterMap(FilterMap(notifications, NotificationNotAbout(doomed)), NotificationNotTo(u)), u);
      users := users - {u};
      assert State() == OnDeleteUser(before, u);
      UserDataCleanup(u);
    }
  }
}
