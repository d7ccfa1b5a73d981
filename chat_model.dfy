/** The chat message document: its schema bounds, the sender's read marker
    added when a new message is first saved, the read/edit/delete methods,
    and the static queries over the collection of messages. */
module ChatModel {
  import opened Common
  import Query

  const MaxMessageLength := 1000
  const DeletedPlaceholder := "[Message deleted]"
  const DefaultPageSize := 50
  const MessageTypes := ["text", "image", "file", "system"]

  /** One entry of the `isRead` array: who read the message, and when. */
  datatype ReadMarker = ReadMarker(userId: Id, readAt: int)

  /** A chat message as it is stored. Enumerated fields are kept as the
      strings the store holds; `ValidChat` is the schema's validation. */
  datatype ChatRecord = ChatRecord(
    id: Id,
    roomId: string,
    participants: seq<Id>,
    senderId: Id,
    senderName: string,
    message: string,
    messageType: string,
    isRead: seq<ReadMarker>,
    isEdited: bool,
    editedAt: Option<int>,
    isDeleted: bool,
    deletedAt: Option<int>,
    createdAt: int)

  /** A required string of at most 1000 UTF-16 code units (the store's
      `required` check refuses the empty string). */
  predicate ValidBody(s: string) {
    s != "" && Utf16Length(s) <= MaxMessageLength
  }

  /** The schema validation run before every save. */
  predicate ValidChat(m: ChatRecord) {
    m.roomId != "" && m.senderName != "" && ValidBody(m.message) && m.messageType in MessageTypes
  }

  /** Whether some read marker belongs to `u`: the `some` of `isReadBy`, and
      the `find` that `markAsRead` tests. */
  function ReadBy(markers: seq<ReadMarker>, u: Id): (r: bool)
    ensures r <==> exists i :: 0 <= i < |markers| && markers[i].userId == u
  {
    if markers == [] then false
    else markers[0].userId == u || ReadBy(markers[1..], u)
  }

  /** Read markers form a set keyed by user: no user holds two. */
  predicate DistinctReaders(markers: seq<ReadMarker>) {
    forall i, j :: 0 <= i < j < |markers| ==> markers[i].userId != markers[j].userId
  }

  // ---------------------------------------------------------------------
  // What each document method does to the stored record

  /** The pre-save hook of a new message: the sender has read it. */
  function WithSenderMarker(m: ChatRecord, now: int): ChatRecord {
    m.(isRead := m.isRead + [ReadMarker(m.senderId, now)])
  }

  /** `markAsRead(u)`: a marker for `u` is added only when there is none. */
  function MarkedAsRead(m: ChatRecord, u: Id, now: int): ChatRecord {
    if ReadBy(m.isRead, u) then m else m.(isRead := m.isRead + [ReadMarker(u, now)])
  }

  /** `editMessage(text)`: replaces the body and flags the edit. */
  function Edited(m: ChatRecord, text: string, now: int): ChatRecord {
    m.(message := text, isEdited := true, editedAt := Some(now))
  }

  /** `deleteMessage()`: the soft delete. */
  function Deleted(m: ChatRecord, now: int): ChatRecord {
    m.(isDeleted := true, deletedAt := Some(now), message := DeletedPlaceholder)
  }

  /** A message document held in memory between a load and a save. */
  class ChatDocument {
    var id: Id
    var roomId: string
    var participants: seq<Id>
    var senderId: Id
    var senderName: string
    var message: string
    var messageType: string
    var isRead: seq<ReadMarker>
    var isEdited: bool
    var editedAt: Option<int>
    var isDeleted: bool
    var deletedAt: Option<int>
    var createdAt: int
    /** True until the document has been saved once. */
    var isNew: bool

    function Record(): ChatRecord
      reads this
    {
      ChatRecord(id, roomId, participants, senderId, senderName, message, messageType,
                 isRead, isEdited, editedAt, isDeleted, deletedAt, createdAt)
    }

    /** `new Chat({...})`: schema defaults applied, not yet saved. */
    constructor New(id: Id, roomId: string, participants: seq<Id>, senderId: Id, senderName: string,
                    message: string, messageType: Option<string>, now: int)
      ensures isNew
      ensures Record() == ChatRecord(id, roomId, participants, senderId, senderName, message,
                                     messageType.GetOr("text"), [], false, None, false, None, now)
    {
      this.id, this.roomId, this.participants := id, roomId, participants;
      this.senderId, this.senderName, this.message := senderId, senderName, message;
      this.messageType := messageType.GetOr("text");
      isRead, isEdited, editedAt, isDeleted, deletedAt := [], false, None, false, None;
      createdAt, isNew := now, true;
    }

    /** A document hydrated from a stored record (`findById`). */
    constructor Load(r: ChatRecord)
      ensures !isNew && Record() == r
    {
      id, roomId, participants, senderId, senderName := r.id, r.roomId, r.participants, r.senderId, r.senderName;
      message, messageType, isRead := r.message, r.messageType, r.isRead;
      isEdited, editedAt, isDeleted, deletedAt, createdAt := r.isEdited, r.editedAt, r.isDeleted, r.deletedAt, r.createdAt;
      isNew := false;
    }

    /** The pre-save hook: a new message gets the sender's read marker. */
    method PreSave(now: int)
      modifies this
      ensures isNew == old(isNew)
      ensures Record() == if old(isNew) then WithSenderMarker(old(Record()), now) else old(Record())
    {
      if isNew {
        isRead := isRead + [ReadMarker(senderId, now)];
      }
    }

    /** `markAsRead(u)`. Returns whether the method saves the document; when
        `u` already has a marker it resolves without saving. */
    method MarkAsRead(u: Id, now: int) returns (saves: bool)
      modifies this
      ensures saves == !ReadBy(old(isRead), u)
      ensures isNew == old(isNew)
      ensures Record() == MarkedAsRead(old(Record()), u, now)
    {
      var existingRead := ReadBy(isRead, u);
      if !existingRead {
        isRead := isRead + [ReadMarker(u, now)];
        return true;
      }
      return false;
    }

    /** `editMessage(text)`; it does not look at `isDeleted`. */
    method EditMessage(text: string, now: int)
      modifies this
      ensures isNew == old(isNew)
      ensures Record() == Edited(old(Record()), text, now)
    {
      message := text;
      isEdited := true;
      editedAt := Some(now);
    }

    /** `deleteMessage()`. */
    method DeleteMessage(now: int)
      modifies this
      ensures isNew == old(isNew)
      ensures Record() == Deleted(old(Record()), now)
    {
      isDeleted := true;
      deletedAt := Some(now);
      message := DeletedPlaceholder;
    }
  }

  // ---------------------------------------------------------------------
  // Properties of the document methods

  /** A message saved for the first time carries exactly one read marker,
      the sender's. */
  lemma NewMessageReadBySenderOnly(m: ChatRecord, now: int, u: Id)
    requires m.isRead == []
    ensures |WithSenderMarker(m, now).isRead| == 1
    ensures WithSenderMarker(m, now).isRead[0].userId == m.senderId
    ensures ReadBy(WithSenderMarker(m, now).isRead, u) <==> u == m.senderId
    ensures DistinctReaders(WithSenderMarker(m, now).isRead)
  {
    assert WithSenderMarker(m, now).isRead == [ReadMarker(m.senderId, now)];
  }

  /** Marking twice has the effect of marking once, whatever the clock says. */
  lemma MarkAsReadIdempotent(m: ChatRecord, u: Id, t1: int, t2: int)
    ensures MarkedAsRead(MarkedAsRead(m, u, t1), u, t2) == MarkedAsRead(m, u, t1)
  {
    var m1 := MarkedAsRead(m, u, t1);
    if !ReadBy(m.isRead, u) {
      assert m1.isRead[|m.isRead|].userId == u;
    }
  }

  /** After `markAsRead(u)` the message is read by `u`; the markers of every
      other user are as before; the old markers are kept as a prefix and at
      most the one marker for `u` is added; keys stay distinct; nothing but
      the markers changes. */
  lemma MarkAsReadEffect(m: ChatRecord, u: Id, now: int)
    ensures var r := MarkedAsRead(m, u, now);
      && ReadBy(r.isRead, u)
      && (forall v :: v != u ==> (ReadBy(r.isRead, v) <==> ReadBy(m.isRead, v)))
      && (r.isRead == m.isRead || (!ReadBy(m.isRead, u) && r.isRead == m.isRead + [ReadMarker(u, now)]))
      && (DistinctReaders(m.isRead) ==> DistinctReaders(r.isRead))
      && r.(isRead := m.isRead) == m
  {
    var r := MarkedAsRead(m, u, now);
    if !ReadBy(m.isRead, u) {
      assert r.isRead[|m.isRead|].userId == u;
      forall v | v != u
        ensures ReadBy(r.isRead, v) <==> ReadBy(m.isRead, v)
      {
        if ReadBy(r.isRead, v) {
          var i :| 0 <= i < |r.isRead| && r.isRead[i].userId == v;
          assert i < |m.isRead| && m.isRead[i].userId == v;
        }
        if ReadBy(m.isRead, v) {
          var i :| 0 <= i < |m.isRead| && m.isRead[i].userId == v;
          assert r.isRead[i].userId == v;
        }
      }
    }
  }

  /** An edit replaces the body and sets the edited flag; the deleted flag,
      the markers and the sender are untouched, so an edit after a delete
      overwrites the placeholder while the message stays deleted. */
  lemma EditKeepsDeletionAndMarkers(m: ChatRecord, text: string, now: int)
    ensures Edited(m, text, now).message == text && Edited(m, text, now).isEdited
    ensures Edited(m, text, now).isDeleted == m.isDeleted
    ensures Edited(m, text, now).isRead == m.isRead
    ensures Edited(m, text, now).senderId == m.senderId
    ensures Edited(Deleted(m, now), text, now).isDeleted
  {
  }

  /** Deleting sets the flag and the placeholder body, and no document
      method ever clears the flag again. */
  lemma DeletionIsPermanent(m: ChatRecord, u: Id, text: string, now: int)
    ensures Deleted(m, now).isDeleted && Deleted(m, now).message == DeletedPlaceholder
    ensures ValidChat(m) ==> ValidChat(Deleted(m, now))
    ensures m.isDeleted ==> MarkedAsRead(m, u, now).isDeleted && Edited(m, text, now).isDeleted
                            && Deleted(m, now).isDeleted
  {
  }

  // ---------------------------------------------------------------------
  // Static queries over the collection

  function CreatedAt(m: ChatRecord): real {
    m.createdAt as real
  }

  predicate VisibleIn(m: ChatRecord, roomId: string) {
    m.roomId == roomId && !m.isDeleted
  }

  /** `find({ roomId, isDeleted: false })`, in the collection's order: the
      matching messages, each as often as it is stored. */
  function RoomQuery(chats: seq<ChatRecord>, roomId: string): (r: seq<ChatRecord>)
    ensures forall m :: multiset(r)[m] == if VisibleIn(m, roomId) then multiset(chats)[m] else 0
  {
    if chats == [] then []
    else
      assert chats == [chats[0]] + chats[1..];
      (if VisibleIn(chats[0], roomId) then [chats[0]] else []) + RoomQuery(chats[1..], roomId)
  }

  /** `.sort({ createdAt: -1 })`. */
  function NewestFirst(s: seq<ChatRecord>): seq<ChatRecord> {
    Query.SortDesc(s, CreatedAt)
  }

  /** `getRoomMessages(roomId, page, limit)`: None when the skip is negative,
      which the store refuses. */
  function GetRoomMessages(chats: seq<ChatRecord>, roomId: string, page: int, limit: int): (r: Option<seq<ChatRecord>>)
    ensures r.Some? <==> Query.SkipFor(page, limit) >= 0
    ensures r.Some? ==> forall k :: 0 <= k < |r.value| ==> r.value[k] in chats && VisibleIn(r.value[k], roomId)
  {
    var sorted := NewestFirst(RoomQuery(chats, roomId));
    NewestFirstOfRoom(chats, roomId, sorted);
    Query.Window(sorted, Query.SkipFor(page, limit), limit)
  }

  /** The sorted matches are the room's undeleted messages, newest first. */
  lemma NewestFirstOfRoom(chats: seq<ChatRecord>, roomId: string, sorted: seq<ChatRecord>)
    requires sorted == NewestFirst(RoomQuery(chats, roomId))
    ensures forall k :: 0 <= k < |sorted| ==> VisibleIn(sorted[k], roomId) && sorted[k] in chats
    ensures forall i, j :: 0 <= i < j < |sorted| ==> sorted[i].createdAt >= sorted[j].createdAt
  {
    var matches := RoomQuery(chats, roomId);
    forall k | 0 <= k < |sorted|
      ensures VisibleIn(sorted[k], roomId) && sorted[k] in chats
    {
      assert sorted[k] in multiset(sorted);
      assert multiset(sorted)[sorted[k]] == multiset(matches)[sorted[k]];
    }
    forall i, j | 0 <= i < j < |sorted|
      ensures sorted[i].createdAt >= sorted[j].createdAt
    {
      assert CreatedAt(sorted[i]) >= CreatedAt(sorted[j]);
    }
  }

  /** A skip/limit window keeps what holds of every element, and the order. */
  lemma WindowOfRoom(sorted: seq<ChatRecord>, chats: seq<ChatRecord>, roomId: string, skip: int, limit: int)
    requires skip >= 0 && limit > 0
    requires forall k :: 0 <= k < |sorted| ==> VisibleIn(sorted[k], roomId) && sorted[k] in chats
    requires forall i, j :: 0 <= i < j < |sorted| ==> sorted[i].createdAt >= sorted[j].createdAt
    ensures var r := Query.Window(sorted, skip, limit).value;
      && |r| <= limit && |r| == Query.PageLength(|sorted|, skip, limit)
      && (forall k :: 0 <= k < |r| ==> r[k].roomId == roomId && !r[k].isDeleted && r[k] in chats)
      && (forall i, j :: 0 <= i < j < |r| ==> r[i].createdAt >= r[j].createdAt)
      && (forall k :: 0 <= k < |r| ==> r[k] == sorted[skip + k])
  {
    var r := Query.Window(sorted, skip, limit).value;
    forall i, j | 0 <= i < j < |r|
      ensures r[i].createdAt >= r[j].createdAt
    {
      assert r[i] == sorted[skip + i] && r[j] == sorted[skip + j];
    }
  }

  /** The selection rules of `getRoomMessages`: only undeleted messages of
      the room, newest first, skipping `(page - 1) * limit` of them and
      returning `limit` of them, or all that remain when fewer do; the k-th
      result is the match at position `(page - 1) * limit + k` of the
      newest-first order. */
  lemma RoomMessagesSelection(chats: seq<ChatRecord>, roomId: string, page: int, limit: int)
    requires page >= 1 && limit > 0
    ensures GetRoomMessages(chats, roomId, page, limit).Some?
    ensures var r := GetRoomMessages(chats, roomId, page, limit).value;
      && |r| <= limit
      && |r| == Query.PageLength(|RoomQuery(chats, roomId)|, Query.SkipFor(page, limit), limit)
      && (forall k :: 0 <= k < |r| ==> r[k].roomId == roomId && !r[k].isDeleted && r[k] in chats)
      && (forall i, j :: 0 <= i < j < |r| ==> r[i].createdAt >= r[j].createdAt)
      && (forall k :: 0 <= k < |r| ==> r[k] == NewestFirst(RoomQuery(chats, roomId))[Query.SkipFor(page, limit) + k])
  {
    var skip := Query.SkipFor(page, limit);
    Query.SkipNonNegative(page, limit);
    var sorted := NewestFirst(RoomQuery(chats, roomId));
    NewestFirstOfRoom(chats, roomId, sorted);
    WindowOfRoom(sorted, chats, roomId, skip, limit);
    assert |sorted| == |multiset(sorted)| == |multiset(RoomQuery(chats, roomId))| == |RoomQuery(chats, roomId)|;
  }

  /** The unread predicate of `getUnreadCount`: not deleted, no marker for
      `u` (the `$ne` test on the marker array), and in `room` when a room is
      given (an empty room string counts as none). */
  predicate CountsAsUnread(m: ChatRecord, u: Id, room: Option<string>) {
    !m.isDeleted && !ReadBy(m.isRead, u) && (Present(room) ==> m.roomId == room.value)
  }

  /** `getUnreadCount(u, room)`. */
  function GetUnreadCount(chats: seq<ChatRecord>, u: Id, room: Option<string>): (n: nat)
    ensures n <= |chats|
  {
    if chats == [] then 0
    else (if CountsAsUnread(chats[0], u, room) then 1 else 0) + GetUnreadCount(chats[1..], u, room)
  }

  /** Marking message `i` read by `u` lowers `u`'s unread count by one when
      that message was counted, and otherwise leaves it as it was. */
  lemma {:induction false} UnreadAfterMarkAsRead(chats: seq<ChatRecord>, i: nat, u: Id, room: Option<string>, now: int)
    requires i < |chats|
    ensures GetUnreadCount(chats[i := MarkedAsRead(chats[i], u, now)], u, room)
            == GetUnreadCount(chats, u, room) - (if CountsAsUnread(chats[i], u, room) then 1 else 0)
  {
    var after := chats[i := MarkedAsRead(chats[i], u, now)];
    MarkAsReadEffect(chats[i], u, now);
    if i == 0 {
      assert after[1..] == chats[1..];
    } else {
      assert after[1..] == chats[1..][i - 1 := MarkedAsRead(chats[i], u, now)];
      UnreadAfterMarkAsRead(chats[1..], i - 1, u, room, now);
    }
  }

  /** The count is zero exactly when no message counts as unread. */
  lemma {:induction false} UnreadCountZero(chats: seq<ChatRecord>, u: Id, room: Option<string>)
    ensures GetUnreadCount(chats, u, room) == 0 <==> forall i :: 0 <= i < |chats| ==> !CountsAsUnread(chats[i], u, room)
  {
    if chats != [] {
      UnreadCountZero(chats[1..], u, room);
      assert forall i :: 1 <= i < |chats| ==> chats[i] == chats[1..][i - 1];
    }
  }

  /** Restricting the count to one room never raises it. */
  lemma {:induction false} UnreadInRoomAtMostOverall(chats: seq<ChatRecord>, u: Id, room: string)
    ensures GetUnreadCount(chats, u, Some(room)) <= GetUnreadCount(chats, u, None)
  {
    if chats != [] {
      UnreadInRoomAtMostOverall(chats[1..], u, room);
    }
  }

  // ---------------------------------------------------------------------
  // Room identifiers of direct chats

  /** The comparison `Array.prototype.sort` applies to strings by default:
      lexicographic on characters. */
  predicate IdLessEq(a: string, b: string) {
    a == [] || (b != [] && (a[0] < b[0] || (a[0] == b[0] && IdLessEq(a[1..], b[1..]))))
  }

  lemma {:induction false} IdLessEqTotal(a: string, b: string)
    ensures IdLessEq(a, b) || IdLessEq(b, a)
  {
    if a != [] && b != [] && a[0] == b[0] {
      IdLessEqTotal(a[1..], b[1..]);
    }
  }

  lemma {:induction false} IdLessEqAntisymmetric(a: string, b: string)
    requires IdLessEq(a, b) && IdLessEq(b, a)
    ensures a == b
  {
    if a != [] && b != [] {
      IdLessEqAntisymmetric(a[1..], b[1..]);
      assert a == [a[0]] + a[1..] && b == [b[0]] + b[1..];
    }
  }

  lemma {:induction false} IdLessEqReflexive(a: string)
    ensures IdLessEq(a, a)
  {
    if a != [] {
      IdLessEqReflexive(a[1..]);
    }
  }

  lemma {:induction false} IdLessEqTransitive(a: string, b: string, c: string)
    requires IdLessEq(a, b) && IdLessEq(b, c)
    ensures IdLessEq(a, c)
  {
    if a != [] && b != [] && c != [] && a[0] == b[0] == c[0] {
      IdLessEqTransitive(a[1..], b[1..], c[1..]);
    }
  }

  predicate IdsSorted(s: seq<string>) {
    forall i, j :: 0 <= i < j < |s| ==> IdLessEq(s[i], s[j])
  }

  function InsertId(x: string, s: seq<string>): (r: seq<string>)
    requires IdsSorted(s)
    ensures IdsSorted(r)
    ensures multiset(r) == multiset(s) + multiset{x}
  {
    if s == [] then [x]
    else if IdLessEq(x, s[0]) then
      assert forall j :: 0 <= j < |s| ==> IdLessEq(x, s[j]) by {
        forall j | 0 <= j < |s| ensures IdLessEq(x, s[j]) {
          if j > 0 { IdLessEqTransitive(x, s[0], s[j]); }
        }
      }
      PrependId(x, s);
      [x] + s
    else
      IdLessEqTotal(x, s[0]);
      var rest := InsertId(x, s[1..]);
      HeadBoundsInsert(x, s, rest);
      PrependId(s[0], rest);
      assert s == [s[0]] + s[1..];
      [s[0]] + rest
  }

  /** An id no larger than every element may go in front. */
  lemma PrependId(y: string, rest: seq<string>)
    requires IdsSorted(rest)
    requires forall k :: 0 <= k < |rest| ==> IdLessEq(y, rest[k])
    ensures IdsSorted([y] + rest)
  {
    var r := [y] + rest;
    forall i, j | 0 <= i < j < |r|
      ensures IdLessEq(r[i], r[j])
    {
      assert r[j] == rest[j - 1];
      if i > 0 {
        assert r[i] == rest[i - 1];
      }
    }
  }

  /** The head of a sorted list bounds what inserting a larger id into its
      tail yields. */
  lemma HeadBoundsInsert(x: string, s: seq<string>, rest: seq<string>)
    requires IdsSorted(s) && s != [] && IdLessEq(s[0], x)
    requires multiset(rest) == multiset(s[1..]) + multiset{x}
    ensures forall k :: 0 <= k < |rest| ==> IdLessEq(s[0], rest[k])
  {
    forall k | 0 <= k < |rest|
      ensures IdLessEq(s[0], rest[k])
    {
      assert rest[k] in multiset(rest);
      if rest[k] != x {
        assert rest[k] in multiset(s[1..]);
        var j :| 0 <= j < |s[1..]| && s[1..][j] == rest[k];
        assert s[j + 1] == rest[k];
      }
    }
  }

  /** `participantIds.sort()`: a sorted permutation of the ids. */
  function SortIds(s: seq<string>): (r: seq<string>)
    ensures IdsSorted(r)
    ensures multiset(r) == multiset(s)
  {
    if s == [] then []
    else
      assert s == [s[0]] + s[1..];
      InsertId(s[0], SortIds(s[1..]))
  }

  lemma SortedFirstIsLeast(s: seq<string>, x: string)
    requires IdsSorted(s) && x in s
    ensures IdLessEq(s[0], x)
  {
    var i :| 0 <= i < |s| && s[i] == x;
    if i == 0 {
      IdLessEqReflexive(x);
    }
  }

  lemma TailsSameIds(a: seq<string>, b: seq<string>)
    requires a != [] && b != [] && a[0] == b[0]
    requires multiset(a) == multiset(b)
    ensures multiset(a[1..]) == multiset(b[1..])
  {
    assert a == [a[0]] + a[1..] && b == [b[0]] + b[1..];
    assert multiset(a[1..]) == multiset(a) - multiset{a[0]};
    assert multiset(b[1..]) == multiset(b) - multiset{b[0]};
  }

  /** Two sorted arrangements of the same ids are the same sequence. */
  lemma {:induction false} SortedIdsUnique(a: seq<string>, b: seq<string>)
    requires IdsSorted(a) && IdsSorted(b)
    requires multiset(a) == multiset(b)
    ensures a == b
  {
    if a != [] {
      assert |a| == |multiset(a)| == |multiset(b)| == |b|;
      assert a[0] in multiset(b) && b[0] in multiset(a);
      SortedFirstIsLeast(b, a[0]);
      SortedFirstIsLeast(a, b[0]);
      IdLessEqAntisymmetric(a[0], b[0]);
      TailsSameIds(a, b);
      SortedIdsUnique(a[1..], b[1..]);
      assert a == [a[0]] + a[1..] && b == [b[0]] + b[1..];
    }
  }

  /** `parts.join(sep)`. */
  function Join(parts: seq<string>, sep: string): string {
    if parts == [] then ""
    else if |parts| == 1 then parts[0]
    else parts[0] + sep + Join(parts[1..], sep)
  }

  /** `createOrGetRoom(ids)`: the sorted ids joined by underscores. */
  function CreateOrGetRoom(ids: seq<Id>): (r: string)
    ensures ids == [] ==> r == ""
    ensures |ids| == 1 ==> r == ids[0]
  {
    SortIdsShort(ids);
    Join(SortIds(ids), "_")
  }

  /** Sorting no id or a single id leaves it as it is. */
  lemma SortIdsShort(ids: seq<Id>)
    ensures |ids| <= 1 ==> SortIds(ids) == ids
  {
    if |ids| == 1 {
      assert ids[1..] == [];
      assert SortIds(ids) == InsertId(ids[0], []) == [ids[0]];
    }
  }

  /** The room id depends only on which ids are given, not on their order. */
  lemma CreateOrGetRoomOrderFree(a: seq<Id>, b: seq<Id>)
    requires multiset(a) == multiset(b)
    ensures CreateOrGetRoom(a) == CreateOrGetRoom(b)
  {
    SortedIdsUnique(SortIds(a), SortIds(b));
  }

  lemma SortIdsPair(x: Id, y: Id)
    ensures SortIds([x, y]) == if IdLessEq(x, y) then [x, y] else [y, x]
  {
    assert [x, y][1..] == [y];
    assert [y][1..] == [];
    assert SortIds([y]) == InsertId(y, []) == [y];
    assert SortIds([x, y]) == InsertId(x, [y]);
    if !IdLessEq(x, y) {
      assert [y][1..] == [];
      assert InsertId(x, [y]) == [y] + InsertId(x, []);
    }
  }

  lemma JoinPair(x: string, y: string, sep: string)
    ensures Join([x, y], sep) == x + sep + y
  {
    assert [x, y][1..] == [y];
  }

  /** For two participants: the smaller id, an underscore, the larger id,
      whichever of them asks. */
  lemma CreateOrGetRoomPair(x: Id, y: Id)
    ensures CreateOrGetRoom([x, y]) == CreateOrGetRoom([y, x])
    ensures CreateOrGetRoom([x, y]) == if IdLessEq(x, y) then x + "_" + y else y + "_" + x
  {
    assert multiset([x, y]) == multiset([y, x]);
    CreateOrGetRoomOrderFree([x, y], [y, x]);
    SortIdsPair(x, y);
    JoinPair(x, y, "_");
    JoinPair(y, x, "_");
  }
}
