/** The handlers under `/api/chat`: opening a room, reading a room's
    history, and marking, editing and deleting one message. */
module ChatRoutes {
  import opened Common
  import Query
  import opened ApplicationModel
  import opened ChatModel
  import opened Store

  /** What `POST /room` answers with. */
  datatype RoomInfo =
    | ApplicationRoom(roomId: string, candidate: Id, recruiter: Id, application: Id, status: string)
    | DirectRoom(roomId: string, current: Id, other: Id)

  /** The room of the conversation about one application. */
  function ApplicationRoomId(applicationId: Id): (r: string)
    ensures |r| == |applicationId| + 4 && r[..4] == "app_" && r[4..] == applicationId
  {
    "app_" + applicationId
  }

  /** `POST /room` as intended: an application room for the application's
      two parties (no exemption for admins); otherwise a direct room with an
      existing user, named by `createOrGetRoom`; otherwise 400. The
      application's candidate and recruiter are populated, so a reference
      to a removed user fails when its id is read (500). */
  function OpenRoom(apps: seq<ApplicationRecord>, users: map<Id, User>, caller: User,
                    participantId: Option<Id>, applicationId: Option<Id>): (r: Reply<RoomInfo>)
    ensures r.Ok? ==> Present(applicationId) || Present(participantId)
    ensures r.Ok? && r.value.ApplicationRoom? ==>
              Present(applicationId) && r.value.application == applicationId.value
              && (caller.id == r.value.candidate || caller.id == r.value.recruiter)
    ensures r.Ok? && r.value.DirectRoom? ==>
              !Present(applicationId) && r.value.current == caller.id && r.value.other == participantId.value
              && r.value.other in users
  {
    if Present(applicationId) then
      match FindApplication(apps, applicationId.value)
      case None => Fail(404, "Application not found")
      case Some(i) =>
        var a := apps[i];
        if a.candidate !in users || a.recruiter !in users then ServerError()
        else if a.candidate != caller.id && a.recruiter != caller.id then Fail(403, "Not authorized to access this chat")
        else Ok(200, ApplicationRoom(ApplicationRoomId(applicationId.value), a.candidate, a.recruiter, a.id, a.status))
    else if Present(participantId) then
      if participantId.value !in users then Fail(404, "User not found")
      else Ok(200, DirectRoom(CreateOrGetRoom([caller.id, participantId.value]), caller.id, participantId.value))
    else Fail(400, "Either participantId or applicationId is required")
  }

  /** `POST /room` as written: the direct branch looks the participant up
      through a `User` binding the file never imports, which throws before
      anything else happens, so that branch always ends in the catch block. */
  function OpenRoomAsWritten(apps: seq<ApplicationRecord>, users: map<Id, User>, caller: User,
                             participantId: Option<Id>, applicationId: Option<Id>): (r: Reply<RoomInfo>)
    ensures r.Ok? ==> Present(applicationId) && r.value.ApplicationRoom?
    ensures !Present(applicationId) && Present(participantId) ==> r == ServerError()
  {
    if Present(applicationId) then OpenRoom(apps, users, caller, participantId, applicationId)
    else if Present(participantId) then ServerError()
    else Fail(400, "Either participantId or applicationId is required")
  }

  /** The application room is granted exactly to the application's
      candidate and recruiter, and is named `app_` followed by the id. */
  lemma ApplicationRoomAccess(apps: seq<ApplicationRecord>, users: map<Id, User>, caller: User,
                              participantId: Option<Id>, i: nat)
    requires ApplicationsInvariant(apps) && i < |apps| && apps[i].id != ""
    requires apps[i].candidate in users && apps[i].recruiter in users
    ensures var r := OpenRoom(apps, users, caller, participantId, Some(apps[i].id));
      && (r.Ok? <==> caller.id == apps[i].candidate || caller.id == apps[i].recruiter)
      && (r.Fail? ==> r == Fail(403, "Not authorized to access this chat"))
      && (r.Ok? ==> r.value.roomId == "app_" + apps[i].id)
  {
    FindApplicationUnique(apps, apps[i].id, i);
  }

  /** A request naming neither room kind gets 400, an unknown application
      404, whichever participant is named. */
  lemma OpenRoomErrors(apps: seq<ApplicationRecord>, users: map<Id, User>, caller: User,
                       participantId: Option<Id>, applicationId: Option<Id>)
    ensures !Present(applicationId) && !Present(participantId) ==>
              OpenRoom(apps, users, caller, participantId, applicationId)
              == Fail(400, "Either participantId or applicationId is required")
    ensures Present(applicationId) && (forall i :: 0 <= i < |apps| ==> apps[i].id != applicationId.value) ==>
              OpenRoom(apps, users, caller, participantId, applicationId) == Fail(404, "Application not found")
  {
  }

  /** Two users opening a direct room with each other get the same room,
      whoever asks. */
  lemma DirectRoomSymmetric(apps: seq<ApplicationRecord>, users: map<Id, User>, x: User, y: User)
    requires UsersInvariant(users) && x.id in users && y.id in users && x.id != "" && y.id != ""
    ensures var rx := OpenRoom(apps, users, x, Some(y.id), None);
      var ry := OpenRoom(apps, users, y, Some(x.id), None);
      && rx.Ok? && ry.Ok?
      && rx.value.roomId == ry.value.roomId
      && (rx.value.roomId == x.id + "_" + y.id || rx.value.roomId == y.id + "_" + x.id)
  {
    CreateOrGetRoomPair(x.id, y.id);
    assert OpenRoom(apps, users, x, Some(y.id), None)
           == Ok(200, DirectRoom(CreateOrGetRoom([x.id, y.id]), x.id, y.id));
    assert OpenRoom(apps, users, y, Some(x.id), None)
           == Ok(200, DirectRoom(CreateOrGetRoom([y.id, x.id]), y.id, x.id));
  }

  /** As written, a direct room can never be opened: with any existing
      participant the intended handler answers 200, the written one 500. */
  lemma DirectRoomAsWrittenFails(apps: seq<ApplicationRecord>, users: map<Id, User>, caller: User, other: Id)
    requires other in users && other != ""
    ensures OpenRoom(apps, users, caller, Some(other), None).Ok?
    ensures OpenRoomAsWritten(apps, users, caller, Some(other), None) == Fail(500, "Server error")
  {
  }

  /** The two agree everywhere but on direct rooms. */
  lemma AsWrittenAgreesElsewhere(apps: seq<ApplicationRecord>, users: map<Id, User>, caller: User,
                                 participantId: Option<Id>, applicationId: Option<Id>)
    requires Present(applicationId) || !Present(participantId)
    ensures OpenRoomAsWritten(apps, users, caller, participantId, applicationId)
            == OpenRoom(apps, users, caller, participantId, applicationId)
  {
  }

  // ---------------------------------------------------------------------
  // GET /room/:roomId/messages

  /** `findOne({ roomId, participants: caller })`: some message of the room,
      deleted or not, lists the caller. */
  predicate HasRoomAccess(chats: seq<ChatRecord>, roomId: string, u: Id) {
    exists i :: 0 <= i < |chats| && chats[i].roomId == roomId && u in chats[i].participants
  }

  /** A page of a room's history; `page` defaults to 1, `limit` to 50. */
  function RoomHistory(chats: seq<ChatRecord>, caller: User, roomId: string, page: Option<int>, limit: Option<int>)
    : (r: Reply<seq<ChatRecord>>)
    ensures r.Ok? ==> HasRoomAccess(chats, roomId, caller.id)
                      && forall k :: 0 <= k < |r.value| ==> r.value[k] in chats && VisibleIn(r.value[k], roomId)
    ensures !HasRoomAccess(chats, roomId, caller.id) ==> r == Fail(403, "Not authorized to access this room")
  {
    if !HasRoomAccess(chats, roomId, caller.id) then Fail(403, "Not authorized to access this room")
    else
      match GetRoomMessages(chats, roomId, page.GetOr(1), limit.GetOr(DefaultPageSize))
      case None => ServerError()
      case Some(messages) => Ok(200, messages)
  }

  /** The history is given exactly to callers listed on some message of the
      room, so never for a room without messages; for a proper page it
      holds only the room's undeleted messages, newest first, at most a
      page of them. */
  lemma RoomHistoryAccess(chats: seq<ChatRecord>, caller: User, roomId: string, page: int, limit: int)
    requires page >= 1 && limit > 0
    ensures var r := RoomHistory(chats, caller, roomId, Some(page), Some(limit));
      && (r.Ok? <==> HasRoomAccess(chats, roomId, caller.id))
      && (r.Fail? ==> r == Fail(403, "Not authorized to access this room"))
      && ((forall i :: 0 <= i < |chats| ==> chats[i].roomId != roomId) ==> r.Fail?)
      && (r.Ok? ==> |r.value| <= limit
                    && |r.value| == Query.PageLength(|RoomQuery(chats, roomId)|, Query.SkipFor(page, limit), limit)
                    && (forall k :: 0 <= k < |r.value| ==>
                          r.value[k].roomId == roomId && !r.value[k].isDeleted && r.value[k] in chats)
                    && (forall i, j :: 0 <= i < j < |r.value| ==> r.value[i].createdAt >= r.value[j].createdAt))
  {
    RoomMessagesSelection(chats, roomId, page, limit);
  }

  /** When the query leaves out page and limit, the first 50 are shown. */
  lemma RoomHistoryDefaults(chats: seq<ChatRecord>, caller: User, roomId: string)
    ensures RoomHistory(chats, caller, roomId, None, None) == RoomHistory(chats, caller, roomId, Some(1), Some(50))
  {
  }

  // ---------------------------------------------------------------------
  // Handlers on one message

  /** A handler's reply together with the messages it leaves. */
  datatype ChatOutcome = ChatOutcome(reply: Reply<string>, chats: seq<ChatRecord>)

  function MarkReadOutcome(chats: seq<ChatRecord>, caller: User, messageId: Id, now: int): (o: ChatOutcome)
    ensures |o.chats| == |chats|
    ensures o.reply.Fail? ==> o.chats == chats
    ensures o.reply.Ok? ==> exists i :: 0 <= i < |chats| && chats[i].id == messageId
                                        && caller.id in chats[i].participants
  {
    match FindChat(chats, messageId)
    case None => ChatOutcome(Fail(404, "Message not found"), chats)
    case Some(i) =>
      if caller.id !in chats[i].participants then ChatOutcome(Fail(403, "Not authorized to access this message"), chats)
      else if ReadBy(chats[i].isRead, caller.id) then ChatOutcome(Ok(200, "Message marked as read"), chats)
      else
        match ChatsAfterSave(chats, MarkedAsRead(chats[i], caller.id, now), false, now)
        case None => ChatOutcome(ServerError(), chats)
        case Some(chats1) => ChatOutcome(Ok(200, "Message marked as read"), chats1)
  }

  function EditOutcome(chats: seq<ChatRecord>, caller: User, messageId: Id, text: Option<string>, now: int)
    : (o: ChatOutcome)
    ensures |o.chats| == |chats|
    ensures o.reply.Fail? ==> o.chats == chats
    ensures o.reply.Ok? ==> text.Some? && ValidBody(text.value)
                            && exists i :: 0 <= i < |chats| && chats[i].id == messageId && chats[i].senderId == caller.id
  {
    match FindChat(chats, messageId)
    case None => ChatOutcome(Fail(404, "Message not found"), chats)
    case Some(i) =>
      if chats[i].senderId != caller.id then ChatOutcome(Fail(403, "Not authorized to edit this message"), chats)
      else if text.None? then ChatOutcome(ServerError(), chats)
      else
        match ChatsAfterSave(chats, Edited(chats[i], text.value, now), false, now)
        case None => ChatOutcome(ServerError(), chats)
        case Some(chats1) => ChatOutcome(Ok(200, "Message updated successfully"), chats1)
  }

  function DeleteOutcome(chats: seq<ChatRecord>, caller: User, messageId: Id, now: int): (o: ChatOutcome)
    ensures |o.chats| == |chats|
    ensures o.reply.Fail? ==> o.chats == chats
    ensures o.reply.Ok? ==> exists i :: 0 <= i < |chats| && chats[i].id == messageId && chats[i].senderId == caller.id
  {
    match FindChat(chats, messageId)
    case None => ChatOutcome(Fail(404, "Message not found"), chats)
    case Some(i) =>
      if chats[i].senderId != caller.id then ChatOutcome(Fail(403, "Not authorized to delete this message"), chats)
      else
        match ChatsAfterSave(chats, Deleted(chats[i], now), false, now)
        case None => ChatOutcome(ServerError(), chats)
        case Some(chats1) => ChatOutcome(Ok(200, "Message deleted successfully"), chats1)
  }

  /** `POST /room/:roomId/messages/:messageId/read`; the room in the path is
      not consulted. */
  method MarkRead(db: Database, caller: User, messageId: Id, now: int) returns (reply: Reply<string>)
    requires db.Valid()
    modifies db
    ensures db.Valid()
    ensures var o := MarkReadOutcome(old(db.chats), caller, messageId, now);
      reply == o.reply && db.chats == o.chats
    ensures db.users == old(db.users) && db.jobs == old(db.jobs) && db.applications == old(db.applications)
  {
    var found := FindChat(db.chats, messageId);
    if found.None? {
      return Fail(404, "Message not found");
    }
    MarkAsReadEffect(db.chats[found.value], caller.id, now);
    var message := new ChatDocument.Load(db.chats[found.value]);
    if caller.id !in message.participants {
      return Fail(403, "Not authorized to access this message");
    }
    var saves := message.MarkAsRead(caller.id, now);
    if saves {
      var saved := db.SaveChat(message, now);
      if !saved {
        return ServerError();
      }
    }
    return Ok(200, "Message marked as read");
  }

  /** `PUT /messages/:messageId`. A request without a body text sets the
      message to undefined, which the required check refuses (500). */
  method Edit(db: Database, caller: User, messageId: Id, text: Option<string>, now: int) returns (reply: Reply<string>)
    requires db.Valid()
    modifies db
    ensures db.Valid()
    ensures var o := EditOutcome(old(db.chats), caller, messageId, text, now);
      reply == o.reply && db.chats == o.chats
    ensures db.users == old(db.users) && db.jobs == old(db.jobs) && db.applications == old(db.applications)
  {
    var found := FindChat(db.chats, messageId);
    if found.None? {
      return Fail(404, "Message not found");
    }
    var chatMessage := new ChatDocument.Load(db.chats[found.value]);
    if chatMessage.senderId != caller.id {
      return Fail(403, "Not authorized to edit this message");
    }
    if text.None? {
      return ServerError();
    }
    chatMessage.EditMessage(text.value, now);
    var saved := db.SaveChat(chatMessage, now);
    if !saved {
      return ServerError();
    }
    return Ok(200, "Message updated successfully");
  }

  /** `DELETE /messages/:messageId`. */
  method Delete(db: Database, caller: User, messageId: Id, now: int) returns (reply: Reply<string>)
    requires db.Valid()
    modifies db
    ensures db.Valid()
    ensures var o := DeleteOutcome(old(db.chats), caller, messageId, now);
      reply == o.reply && db.chats == o.chats
    ensures db.users == old(db.users) && db.jobs == old(db.jobs) && db.applications == old(db.applications)
  {
    var found := FindChat(db.chats, messageId);
    if found.None? {
      return Fail(404, "Message not found");
    }
    var chatMessage := new ChatDocument.Load(db.chats[found.value]);
    if chatMessage.senderId != caller.id {
      return Fail(403, "Not authorized to delete this message");
    }
    chatMessage.DeleteMessage(now);
    var saved := db.SaveChat(chatMessage, now);
    if !saved {
      return ServerError();
    }
    return Ok(200, "Message deleted successfully");
  }

  /** `GET /unread-count`: the caller's unread messages, in `roomId` when
      one is given. */
  function UnreadCount(chats: seq<ChatRecord>, caller: User, roomId: Option<string>): (r: Reply<nat>)
    ensures r.Ok? && r.value <= |chats|
    ensures r.value == 0 <==> forall i :: 0 <= i < |chats| ==> !CountsAsUnread(chats[i], caller.id, roomId)
  {
    UnreadCountZero(chats, caller.id, roomId);
    Ok(200, GetUnreadCount(chats, caller.id, roomId))
  }

  // ---------------------------------------------------------------------
  // Properties of the message handlers

  /** Mark-read is refused to callers not listed on the message; otherwise
      it succeeds, afterwards the caller has read the message, and only that
      message's markers changed. */
  lemma MarkReadEffect(chats: seq<ChatRecord>, caller: User, i: nat, now: int)
    requires ChatsInvariant(chats) && i < |chats|
    ensures var o := MarkReadOutcome(chats, caller, chats[i].id, now);
      && (o.reply.Ok? <==> caller.id in chats[i].participants)
      && (o.reply.Fail? ==> o.reply == Fail(403, "Not authorized to access this message") && o.chats == chats)
      && (o.reply.Ok? ==> o.chats == chats[i := MarkedAsRead(chats[i], caller.id, now)]
                          && ReadBy(o.chats[i].isRead, caller.id))
  {
    FindChatUnique(chats, chats[i].id, i);
    MarkAsReadEffect(chats[i], caller.id, now);
    if ReadBy(chats[i].isRead, caller.id) {
      assert chats[i := MarkedAsRead(chats[i], caller.id, now)] == chats;
    }
  }

  /** Marking a message read twice leaves the store as marking it once. */
  lemma MarkReadIdempotent(chats: seq<ChatRecord>, caller: User, messageId: Id, t1: int, t2: int)
    requires ChatsInvariant(chats)
    ensures var o1 := MarkReadOutcome(chats, caller, messageId, t1);
      MarkReadOutcome(o1.chats, caller, messageId, t2) == o1
  {
    var o1 := MarkReadOutcome(chats, caller, messageId, t1);
    var found := FindChat(chats, messageId);
    if found.Some? {
      var i := found.value;
      MarkReadEffect(chats, caller, i, t1);
      if o1.reply.Ok? {
        ChatSaveKeepsInvariant(chats, MarkedAsRead(chats[i], caller.id, t1), false, t1);
        FindChatUnique(o1.chats, messageId, i);
      }
    }
  }

  /** An id no message holds gets 404 from mark-read, edit and delete, and
      nothing changes. */
  lemma UnknownMessage(chats: seq<ChatRecord>, caller: User, messageId: Id, text: Option<string>, now: int)
    requires forall k :: 0 <= k < |chats| ==> chats[k].id != messageId
    ensures MarkReadOutcome(chats, caller, messageId, now) == ChatOutcome(Fail(404, "Message not found"), chats)
    ensures EditOutcome(chats, caller, messageId, text, now) == ChatOutcome(Fail(404, "Message not found"), chats)
    ensures DeleteOutcome(chats, caller, messageId, now) == ChatOutcome(Fail(404, "Message not found"), chats)
  {
    assert FindChat(chats, messageId).None?;
  }

  /** Edit and delete are refused to anyone but the sender. */
  lemma SenderOnly(chats: seq<ChatRecord>, caller: User, i: nat, text: Option<string>, now: int)
    requires ChatsInvariant(chats) && i < |chats|
    requires chats[i].senderId != caller.id
    ensures EditOutcome(chats, caller, chats[i].id, text, now)
            == ChatOutcome(Fail(403, "Not authorized to edit this message"), chats)
    ensures DeleteOutcome(chats, caller, chats[i].id, now)
            == ChatOutcome(Fail(403, "Not authorized to delete this message"), chats)
  {
    FindChatUnique(chats, chats[i].id, i);
  }

  /** The sender's delete always goes through and leaves the message
      deleted with the placeholder body; the sender's edit goes through
      exactly when the new text is a valid body, and is otherwise a 500 that
      changes nothing. */
  lemma SenderEditDelete(chats: seq<ChatRecord>, caller: User, i: nat, text: Option<string>, now: int)
    requires ChatsInvariant(chats) && i < |chats|
    requires chats[i].senderId == caller.id
    ensures var o := DeleteOutcome(chats, caller, chats[i].id, now);
      && o.reply == Ok(200, "Message deleted successfully")
      && o.chats == chats[i := Deleted(chats[i], now)]
      && o.chats[i].isDeleted && o.chats[i].message == DeletedPlaceholder
    ensures var o := EditOutcome(chats, caller, chats[i].id, text, now);
      && (o.reply.Ok? <==> text.Some? && ValidBody(text.value))
      && (o.reply.Ok? ==> o.reply == Ok(200, "Message updated successfully")
                          && o.chats == chats[i := Edited(chats[i], text.value, now)])
      && (o.reply.Fail? ==> o.reply == ServerError() && o.chats == chats)
  {
    SenderDelete(chats, caller, i, now);
    SenderEdit(chats, caller, i, text, now);
  }

  lemma SenderDelete(chats: seq<ChatRecord>, caller: User, i: nat, now: int)
    requires ChatsInvariant(chats) && i < |chats|
    requires chats[i].senderId == caller.id
    ensures var o := DeleteOutcome(chats, caller, chats[i].id, now);
      && o.reply == Ok(200, "Message deleted successfully")
      && o.chats == chats[i := Deleted(chats[i], now)]
  {
    FindChatUnique(chats, chats[i].id, i);
    DeletionIsPermanent(chats[i], caller.id, "", now);
  }

  lemma SenderEdit(chats: seq<ChatRecord>, caller: User, i: nat, text: Option<string>, now: int)
    requires ChatsInvariant(chats) && i < |chats|
    requires chats[i].senderId == caller.id
    ensures var o := EditOutcome(chats, caller, chats[i].id, text, now);
      && (o.reply.Ok? <==> text.Some? && ValidBody(text.value))
      && (o.reply.Ok? ==> o.reply == Ok(200, "Message updated successfully")
                          && o.chats == chats[i := Edited(chats[i], text.value, now)])
      && (o.reply.Fail? ==> o.reply == ServerError() && o.chats == chats)
  {
    FindChatUnique(chats, chats[i].id, i);
  }

  /** Positions and ids are kept, and every deleted message is still
      deleted. */
  predicate KeepsDeleted(before: seq<ChatRecord>, after: seq<ChatRecord>) {
    |after| == |before|
    && forall k :: 0 <= k < |before| ==> after[k].id == before[k].id && (before[k].isDeleted ==> after[k].isDeleted)
  }

  /** Replacing one message by a record with its id and deletion state keeps
      every deleted message deleted. */
  lemma ReplaceKeepsDeleted(chats: seq<ChatRecord>, i: nat, m: ChatRecord, now: int)
    requires i < |chats| && m.id == chats[i].id && (chats[i].isDeleted ==> m.isDeleted)
    requires FindChat(chats, m.id) == Some(i)
    ensures var w := ChatsAfterSave(chats, m, false, now);
      w.Some? ==> w.value == chats[i := m] && KeepsDeleted(chats, w.value)
  {
  }

  /** A deleted message stays deleted whatever message handler runs next. */
  lemma DeletedStaysDeleted(chats: seq<ChatRecord>, caller: User, messageId: Id, text: Option<string>, now: int)
    ensures KeepsDeleted(chats, MarkReadOutcome(chats, caller, messageId, now).chats)
    ensures KeepsDeleted(chats, EditOutcome(chats, caller, messageId, text, now).chats)
    ensures KeepsDeleted(chats, DeleteOutcome(chats, caller, messageId, now).chats)
  {
    MarkReadKeepsDeleted(chats, caller, messageId, now);
    EditKeepsDeleted(chats, caller, messageId, text, now);
    DeleteKeepsDeleted(chats, caller, messageId, now);
  }

  lemma MarkReadKeepsDeleted(chats: seq<ChatRecord>, caller: User, messageId: Id, now: int)
    ensures KeepsDeleted(chats, MarkReadOutcome(chats, caller, messageId, now).chats)
  {
    var found := FindChat(chats, messageId);
    if found.Some? {
      var m := chats[found.value];
      DeletionIsPermanent(m, caller.id, "", now);
      ReplaceKeepsDeleted(chats, found.value, MarkedAsRead(m, caller.id, now), now);
    }
  }

  lemma EditKeepsDeleted(chats: seq<ChatRecord>, caller: User, messageId: Id, text: Option<string>, now: int)
    ensures KeepsDeleted(chats, EditOutcome(chats, caller, messageId, text, now).chats)
  {
    var found := FindChat(chats, messageId);
    if found.Some? && text.Some? {
      var m := chats[found.value];
      DeletionIsPermanent(m, caller.id, text.value, now);
      ReplaceKeepsDeleted(chats, found.value, Edited(m, text.value, now), now);
    }
  }

  lemma DeleteKeepsDeleted(chats: seq<ChatRecord>, caller: User, messageId: Id, now: int)
    ensures KeepsDeleted(chats, DeleteOutcome(chats, caller, messageId, now).chats)
  {
    var found := FindChat(chats, messageId);
    if found.Some? {
      var m := chats[found.value];
      DeletionIsPermanent(m, caller.id, "", now);
      ReplaceKeepsDeleted(chats, found.value, Deleted(m, now), now);
    }
  }
}
