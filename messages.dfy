/** The chat endpoints of backend/app/api/v1/endpoints/messages.py: list a disclosure's
    messages with their senders, send one, and set a message's read flag. */
module Messages {
  import opened Wrappers
  import opened Domain
  import opened Database
  import Ordering

  function OnDisclosure(id: int): MessageRow -> bool {
    (m: MessageRow) => m.disclosureId == id
  }

  function CreatedAt(m: MessageRow): int {
    m.createdAt
  }

  /** The disclosure's messages in ascending `created_at`; equal timestamps keep table
      order, which SQL leaves open. */
  function Conversation(ms: seq<MessageRow>, id: int): (r: seq<MessageRow>)
    ensures Ordering.SortedBy(r, CreatedAt)
    ensures multiset(r) == multiset(Where(ms, OnDisclosure(id)))
    ensures |r| == |Where(ms, OnDisclosure(id))|
  {
    Ordering.SortBySorted(Where(ms, OnDisclosure(id)), CreatedAt);
    Ordering.SortBy(Where(ms, OnDisclosure(id)), CreatedAt)
  }

  /** The listing holds exactly the disclosure's messages. */
  lemma ConversationMembers(ms: seq<MessageRow>, id: int, m: MessageRow)
    ensures m in Conversation(ms, id) <==> m in ms && m.disclosureId == id
  {
    WhereMembers(ms, OnDisclosure(id), m);
    assert m in Conversation(ms, id) <==> m in multiset(Conversation(ms, id));
    assert m in Where(ms, OnDisclosure(id)) <==> m in multiset(Where(ms, OnDisclosure(id)));
  }

  /** `MessageResponse` with the sender's name and role filled in. */
  datatype MessageView = MessageView(row: MessageRow, senderName: Option<string>, senderRole: Option<string>)

  /** The sender's `full_name` and `role.value`, or `None` for both without such a user. */
  function WithSender(m: MessageRow, users: seq<User>): (v: MessageView)
    ensures v.row == m
    ensures FindUser(users, m.senderId).None? ==> v.senderName.None? && v.senderRole.None?
    ensures FindUser(users, m.senderId).Some? ==>
      v.senderName == FindUser(users, m.senderId).value.fullName
      && v.senderRole == Some(RoleValue(FindUser(users, m.senderId).value.role))
  {
    match FindUser(users, m.senderId)
    case None => MessageView(m, None, None)
    case Some(s) => MessageView(m, s.fullName, Some(RoleValue(s.role)))
  }

  /** `get_messages`: 404 before 403, then the messages oldest first with their senders,
      collected by the endpoint's loop. Nothing is written. */
  method GetMessages(db: Db, user: User, id: int) returns (r: Outcome<seq<MessageView>>)
    ensures r.Fail? <==> CheckAccess(user, FindDisclosure(db.disclosures, id)).Fail?
    ensures r.Fail? ==> r.status == CheckAccess(user, FindDisclosure(db.disclosures, id)).status
                        && r.detail == CheckAccess(user, FindDisclosure(db.disclosures, id)).detail
    ensures r.Ok? ==> |r.value| == |Conversation(db.messages, id)|
    ensures r.Ok? ==> forall i :: 0 <= i < |r.value| ==> r.value[i] == WithSender(Conversation(db.messages, id)[i], db.users)
    ensures r.Ok? ==> forall i, j :: 0 <= i < j < |r.value| ==> r.value[i].row.createdAt <= r.value[j].row.createdAt
  {
    var access := CheckAccess(user, FindDisclosure(db.disclosures, id));
    if access.Fail? {
      return access.Forward();
    }
    var rows := Conversation(db.messages, id);
    var result: seq<MessageView> := [];
    var i := 0;
    while i < |rows|
      invariant 0 <= i <= |rows|
      invariant |result| == i
      invariant forall j :: 0 <= j < i ==> result[j] == WithSender(rows[j], db.users)
    {
      result := result + [WithSender(rows[i], db.users)];
      i := i + 1;
    }
    assert forall a, b :: 0 <= a < b < |rows| ==> CreatedAt(rows[a]) <= CreatedAt(rows[b]);
    return Ok(result);
  }

  /** `create_message`: the access check, then an unread message sent by the caller; the
      timestamp is the database clock, an input here. */
  method CreateMessage(db: Db, user: User, id: int, content: string, now: int) returns (r: Outcome<MessageView>)
    requires db.Valid()
    modifies db
    ensures db.Valid()
    ensures r.Fail? <==> CheckAccess(user, FindDisclosure(old(db.disclosures), id)).Fail?
    ensures r.Fail? ==> (db.Snapshot() == old(db.Snapshot())
                         && r.status == CheckAccess(user, FindDisclosure(old(db.disclosures), id)).status
                         && r.detail == CheckAccess(user, FindDisclosure(old(db.disclosures), id)).detail)
    ensures r.Ok? ==>
      var row := MessageRow(old(db.nextId), id, user.id, content, false, now);
      r.value == MessageView(row, user.fullName, Some(RoleValue(user.role)))
      && db.Snapshot() == old(db.Snapshot()).(messages := old(db.messages) + [row], nextId := old(db.nextId) + 1)
  {
    var access := CheckAccess(user, FindDisclosure(db.disclosures, id));
    if access.Fail? {
      return access.Forward();
    }
    var m := db.AddMessage(MessageRow(0, id, user.id, content, false, now));
    return Ok(MessageView(m, user.fullName, Some(RoleValue(user.role))));
  }

  /** A sent message shows up, unread, in its disclosure's conversation. */
  lemma SentIsListed(ms: seq<MessageRow>, row: MessageRow)
    ensures row in Conversation(ms + [row], row.disclosureId)
  {
    ConversationMembers(ms + [row], row.disclosureId, row);
  }

  /** `mark_message_read`: 404 for the message, then the access check on its disclosure
      (whose absence is a 404 as well); then only `is_read` changes, to the value sent. */
  method MarkMessageRead(db: Db, user: User, messageId: int, isRead: bool) returns (r: Outcome<MessageView>)
    requires db.Valid()
    modifies db
    ensures db.Valid()
    ensures r.Fail? ==> db.Snapshot() == old(db.Snapshot())
    ensures IndexOf(old(db.messages), MessageId, messageId).None? ==> r == Fail(NotFound, "Message not found")
    ensures IndexOf(old(db.messages), MessageId, messageId).Some? ==>
      var k := IndexOf(old(db.messages), MessageId, messageId).value;
      var access := CheckAccess(user, FindDisclosure(old(db.disclosures), old(db.messages)[k].disclosureId));
      (r.Ok? <==> access.Ok?)
      && (r.Fail? ==> r.status == access.status && r.detail == access.detail)
      && (r.Ok? ==>
        r.value == WithSender(old(db.messages)[k].(isRead := isRead), old(db.users))
        && db.Snapshot() == old(db.Snapshot()).(messages := old(db.messages)[k := r.value.row]))
  {
    var found := IndexOf(db.messages, MessageId, messageId);
    if found.None? {
      return Fail(NotFound, "Message not found");
    }
    var k := found.value;
    var access := CheckAccess(user, FindDisclosure(db.disclosures, db.messages[k].disclosureId));
    if access.Fail? {
      return access.Forward();
    }
    var m := db.messages[k].(isRead := isRead);
    db.SetMessage(k, m);
    return Ok(WithSender(m, db.users));
  }
}
