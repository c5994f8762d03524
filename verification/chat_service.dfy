/** The chat service in its in-memory mode (`services/chat.go`, the branches taken when
    no database is configured). Conversations live in a map and in a creation-ordered
    list, messages in a map and in a per-conversation list. The WebSocket hub's
    `SendToUser` calls are recorded, in order, in an outbox. New object ids come from a
    counter. */
module ChatService {
  import opened Common
  import opened Models

  /** One `SendToUser` call: a new message for a participant, or a read receipt for a
      batch of message ids. */
  datatype Event =
    | MessageEvent(to: ObjectId, message: Message)
    | ReadEvent(to: ObjectId, messageIds: seq<ObjectId>, reader: ObjectId, status: MessageStatus)

  const MaxGroupParticipants := 20
  const MaxContentBytes := 2000
  const MaxMessagePage := 100
  const DefaultConversationPage := 20
  const MaxConversationPage := 50

  const ErrTooManyParticipants := "số lượng thành viên không được vượt quá 20"
  const ErrContentTooLong := "độ dài tin nhắn không được vượt quá 2000 ký tự"
  const ErrNoConversation := "cuộc hội thoại không tồn tại"
  const ErrNoAccess := "không có quyền gửi tin nhắn trong cuộc hội thoại này"
  const ErrNoMessage := "tin nhắn không tồn tại"

  // ---------------------------------------------------------------- content length

  /** The number of bytes UTF-8 spends on one character. */
  function Utf8Width(c: char): nat {
    if c as int < 0x80 then 1
    else if c as int < 0x800 then 2
    else if c as int < 0x10000 then 3
    else 4
  }

  /** Go's `len` of a string: its length in UTF-8 bytes. */
  function Utf8Length(s: string): (n: nat)
    ensures |s| <= n <= 4 * |s|
    ensures (forall k :: 0 <= k < |s| ==> s[k] as int < 0x80) ==> n == |s|
  {
    if s == [] then 0 else Utf8Width(s[0]) + Utf8Length(s[1..])
  }

  /** `containsID`. */
  method ContainsId(ids: seq<ObjectId>, id: ObjectId) returns (found: bool)
    ensures found <==> id in ids
  {
    for i := 0 to |ids|
      invariant id !in ids[..i]
    {
      if ids[i] == id {
        return true;
      }
    }
    assert ids[..|ids|] == ids;
    return false;
  }

  // ---------------------------------------------------------------- conversations

  /** The records a list of ids points at, position by position: the store's slices of
      pointers (`conversationList`, and each list of `messagesByConv`) seen as values. */
  function Deref<T>(ids: seq<ObjectId>, store: map<ObjectId, T>): (r: seq<T>)
    requires forall i :: 0 <= i < |ids| ==> ids[i] in store
    ensures |r| == |ids| && forall i :: 0 <= i < |ids| ==> r[i] == store[ids[i]]
  {
    seq(|ids|, i requires 0 <= i < |ids| => store[ids[i]])
  }

  /** The test `CreatePersonalConversation` applies to an existing conversation. */
  predicate IsPersonalPair(c: Conversation, u1: ObjectId, u2: ObjectId) {
    c.kind == PersonalConversation && |c.participants| == 2 && u1 in c.participants && u2 in c.participants
  }

  /** The position of the first conversation of `list` that passes the test. */
  function FirstPersonal(list: seq<Conversation>, u1: ObjectId, u2: ObjectId): (r: Option<nat>)
    ensures r.Some? ==> r.value < |list| && IsPersonalPair(list[r.value], u1, u2)
    ensures r.Some? ==> forall j :: 0 <= j < r.value ==> !IsPersonalPair(list[j], u1, u2)
    ensures r.None? <==> forall j :: 0 <= j < |list| ==> !IsPersonalPair(list[j], u1, u2)
  {
    if list == [] then None
    else if IsPersonalPair(list[0], u1, u2) then Some(0)
    else match FirstPersonal(list[1..], u1, u2)
      case None => None
      case Some(k) => Some(k + 1)
  }

  /** A conversation that passes the test after none before it did is the one found. */
  lemma FirstPersonalAt(list: seq<Conversation>, i: nat, u1: ObjectId, u2: ObjectId)
    requires i < |list| && IsPersonalPair(list[i], u1, u2)
    requires forall j :: 0 <= j < i ==> !IsPersonalPair(list[j], u1, u2)
    ensures FirstPersonal(list, u1, u2) == Some(i)
  {
    assert FirstPersonal(list, u1, u2).Some?;
  }

  /** The participants of a new group: the given ones, with the creator appended when
      absent. */
  function WithCreator(participants: seq<ObjectId>, creator: ObjectId): (r: seq<ObjectId>)
    ensures creator in r
    ensures |participants| <= |r| <= |participants| + 1 && r[..|participants|] == participants
    ensures |r| == |participants| <==> creator in participants
    ensures forall x :: x in r ==> x in participants || x == creator
  {
    if creator in participants then participants else participants + [creator]
  }

  /** The limit `GetConversations` works with: 20 for a non-positive one, at most 50. */
  function ConversationPage(limit: int): (r: int)
    ensures 1 <= r <= MaxConversationPage
    ensures 1 <= limit <= MaxConversationPage ==> r == limit
    ensures limit <= 0 ==> r == DefaultConversationPage
  {
    if limit <= 0 then DefaultConversationPage
    else if limit > MaxConversationPage then MaxConversationPage
    else limit
  }

  /** The first `limit` conversations of `list` that have `user` as a participant. */
  function FirstWith(list: seq<Conversation>, user: ObjectId, limit: int): seq<Conversation> {
    if list == [] || limit <= 0 then []
    else if user in list[0].participants then [list[0]] + FirstWith(list[1..], user, limit - 1)
    else FirstWith(list[1..], user, limit)
  }

  /** The selection holds at most `limit` conversations, all of the user's and taken
      from the list; when it holds fewer, it holds every conversation of the user. */
  lemma {:induction false} FirstWithSpec(list: seq<Conversation>, user: ObjectId, limit: int)
    requires limit >= 0
    ensures var r := FirstWith(list, user, limit);
            && |r| <= limit
            && (forall c :: c in r ==> c in list && user in c.participants)
            && (|r| < limit ==> forall c :: c in list && user in c.participants ==> c in r)
  {
    if list != [] && limit > 0 {
      var rest := list[1..];
      if user in list[0].participants {
        FirstWithSpec(rest, user, limit - 1);
      } else {
        FirstWithSpec(rest, user, limit);
      }
      assert list == [list[0]] + rest;
    }
  }

  predicate SortedByUpdated(s: seq<Conversation>) {
    forall i, j :: 0 <= i < j < |s| ==> s[i].updatedAt >= s[j].updatedAt
  }

  /** Insertion of `c` before the first conversation updated no later than it. */
  function InsertByUpdated(c: Conversation, s: seq<Conversation>): (r: seq<Conversation>)
    ensures |r| == |s| + 1
  {
    if s == [] then [c]
    else if c.updatedAt >= s[0].updatedAt then [c] + s
    else [s[0]] + InsertByUpdated(c, s[1..])
  }

  /** Inserting into a sorted list keeps it sorted and adds exactly `c`. */
  lemma {:induction false} InsertByUpdatedSpec(c: Conversation, s: seq<Conversation>)
    requires SortedByUpdated(s)
    ensures var r := InsertByUpdated(c, s);
            && SortedByUpdated(r)
            && multiset(r) == multiset(s) + multiset{c}
            && (r[0] == c || (s != [] && r[0] == s[0]))
  {
    if s == [] {
    } else if c.updatedAt >= s[0].updatedAt {
      SortedCons(c, s);
    } else {
      var tail := s[1..];
      assert SortedByUpdated(tail);
      InsertByUpdatedSpec(c, tail);
      var rest := InsertByUpdated(c, tail);
      assert s == [s[0]] + tail;
      assert s[0].updatedAt >= rest[0].updatedAt by {
        if rest[0] != c {
          assert rest[0] == s[1];
        }
      }
      SortedCons(s[0], rest);
    }
  }

  lemma SortedCons(x: Conversation, s: seq<Conversation>)
    requires SortedByUpdated(s) && (s != [] ==> x.updatedAt >= s[0].updatedAt)
    ensures SortedByUpdated([x] + s)
  {
    forall i, j | 0 <= i < j < |[x] + s|
      ensures ([x] + s)[i].updatedAt >= ([x] + s)[j].updatedAt
    {
      if i == 0 && j > 1 {
        assert s[0].updatedAt >= s[j - 1].updatedAt;
      }
    }
  }

  /** The order `sort.Slice` leaves with "updated later first": latest update first, and
      the same conversations. Conversations updated at the same time may come in any
      order; this one is one of them. */
  function SortByUpdated(s: seq<Conversation>): (r: seq<Conversation>)
    ensures SortedByUpdated(r)
    ensures multiset(r) == multiset(s)
  {
    if s == [] then []
    else
      assert s == [s[0]] + s[1..];
      InsertByUpdatedSpec(s[0], SortByUpdated(s[1..]));
      InsertByUpdated(s[0], SortByUpdated(s[1..]))
  }

  // ---------------------------------------------------------------- messages

  /** What `GetMessages` lets through: created before the cursor and not deleted. */
  predicate Visible(m: Message, before: int) {
    m.createdAt < before && !m.isDeleted
  }

  /** The scan of `GetMessages`: from the newest stored message backwards, keeping
      visible ones until `limit` are kept. */
  function NewestVisible(ms: seq<Message>, limit: int, before: int): seq<Message> {
    if ms == [] || limit <= 0 then []
    else
      var last := ms[|ms| - 1];
      if Visible(last, before) then [last] + NewestVisible(ms[..|ms| - 1], limit - 1, before)
      else NewestVisible(ms[..|ms| - 1], limit, before)
  }

  /** The visible messages in storage order. */
  function VisibleOf(ms: seq<Message>, before: int): (r: seq<Message>)
    ensures forall m :: m in r <==> m in ms && Visible(m, before)
  {
    if ms == [] then []
    else
      var last := ms[|ms| - 1];
      assert ms == ms[..|ms| - 1] + [last];
      VisibleOf(ms[..|ms| - 1], before) + (if Visible(last, before) then [last] else [])
  }

  function Reverse<T>(s: seq<T>): (r: seq<T>)
    ensures |r| == |s| && forall i :: 0 <= i < |s| ==> r[i] == s[|s| - 1 - i]
  {
    if s == [] then [] else [s[|s| - 1]] + Reverse(s[..|s| - 1])
  }

  function Take<T>(s: seq<T>, n: int): (r: seq<T>)
    ensures |r| == if n <= 0 then 0 else Min(n, |s|)
    ensures r == s[..|r|]
  {
    if n <= 0 then [] else s[..Min(n, |s|)]
  }

  lemma ReverseSnoc<T>(v: seq<T>, x: T)
    ensures Reverse(v + [x]) == [x] + Reverse(v)
  {
    assert (v + [x])[..|v|] == v;
  }

  lemma TakeCons<T>(x: T, t: seq<T>, n: int)
    requires n >= 1
    ensures Take([x] + t, n) == [x] + Take(t, n - 1)
  {
    var l := Take([x] + t, n);
    var r := [x] + Take(t, n - 1);
    assert |l| == |r|;
    forall k | 0 <= k < |l|
      ensures l[k] == r[k]
    {
      if k > 0 {
        assert l[k] == t[k - 1];
      }
    }
  }

  /** One step of the backward scan: the message at `i` is kept when visible. */
  lemma NewestVisibleStep(ms: seq<Message>, i: int, limit: int, before: int)
    requires 0 <= i < |ms| && limit >= 1
    ensures NewestVisible(ms[..i + 1], limit, before)
         == if Visible(ms[i], before) then [ms[i]] + NewestVisible(ms[..i], limit - 1, before)
            else NewestVisible(ms[..i], limit, before)
  {
    var p := ms[..i + 1];
    assert p[|p| - 1] == ms[i];
    assert p[..|p| - 1] == ms[..i];
  }

  /** The page `GetMessages` returns is the newest `limit` visible messages, newest
      first: the visible messages in storage order, reversed, and cut at `limit`. */
  lemma {:induction false} NewestVisibleIsPage(ms: seq<Message>, limit: int, before: int)
    ensures NewestVisible(ms, limit, before) == Take(Reverse(VisibleOf(ms, before)), limit)
  {
    if ms != [] && limit > 0 {
      var init := ms[..|ms| - 1];
      var last := ms[|ms| - 1];
      var v0 := VisibleOf(init, before);
      if Visible(last, before) {
        NewestVisibleIsPage(init, limit - 1, before);
        ReverseSnoc(v0, last);
        TakeCons(last, Reverse(v0), limit);
        calc {
          Take(Reverse(VisibleOf(ms, before)), limit);
          Take(Reverse(v0 + [last]), limit);
          Take([last] + Reverse(v0), limit);
          [last] + Take(Reverse(v0), limit - 1);
          [last] + NewestVisible(init, limit - 1, before);
          NewestVisible(ms, limit, before);
        }
      } else {
        NewestVisibleIsPage(init, limit, before);
        calc {
          Take(Reverse(VisibleOf(ms, before)), limit);
          { assert VisibleOf(ms, before) == v0; }
          Take(Reverse(v0), limit);
          NewestVisible(init, limit, before);
          NewestVisible(ms, limit, before);
        }
      }
    }
  }

  lemma ReverseMembers<T>(v: seq<T>)
    ensures forall x :: x in Reverse(v) <==> x in v
  {
    var rv := Reverse(v);
    forall x | x in rv
      ensures x in v
    {
      var i :| 0 <= i < |rv| && rv[i] == x;
      assert v[|v| - 1 - i] == x;
    }
    forall x | x in v
      ensures x in rv
    {
      var i :| 0 <= i < |v| && v[i] == x;
      assert rv[|v| - 1 - i] == x;
    }
  }

  /** The page holds at most `limit` messages, only visible stored ones, and when it
      holds fewer than `limit` it holds every visible one. */
  lemma NewestVisibleBounds(ms: seq<Message>, limit: int, before: int)
    ensures var r := NewestVisible(ms, limit, before);
            && |r| <= Max(limit, 0)
            && (forall m :: m in r ==> m in ms && Visible(m, before))
            && (|r| < limit ==> forall m :: m in ms && Visible(m, before) ==> m in r)
  {
    NewestVisibleIsPage(ms, limit, before);
    var v := VisibleOf(ms, before);
    var rv := Reverse(v);
    ReverseMembers(v);
    var r := Take(rv, limit);
    assert forall m :: m in r ==> m in rv;
    if |r| < limit {
      assert r == rv;
    }
  }

  /** The message as `MarkMessageAsRead` leaves it: the reader appended to `ReadBy`
      and the status set to read, unless the reader is already there. */
  function MarkRead(m: Message, user: ObjectId): (r: Message)
    ensures user in r.readBy
    ensures |m.readBy| <= |r.readBy| <= |m.readBy| + 1 && r.readBy[..|m.readBy|] == m.readBy
    ensures r == m <==> user in m.readBy
    ensures r.id == m.id && r.senderId == m.senderId && r.conversationId == m.conversationId
    ensures r.content == m.content && r.createdAt == m.createdAt && r.isDeleted == m.isDeleted
  {
    if user in m.readBy then m
    else m.(readBy := m.readBy + [user], status := Read)
  }

  /** Marking is idempotent, and a reader list without duplicates stays so. */
  lemma MarkReadTwice(m: Message, user: ObjectId)
    ensures MarkRead(MarkRead(m, user), user) == MarkRead(m, user)
    ensures NoDup(m.readBy) ==> NoDup(MarkRead(m, user).readBy)
  {
    if user !in m.readBy && NoDup(m.readBy) {
      var s := m.readBy + [user];
      forall i, j | 0 <= i < j < |s|
        ensures s[i] != s[j]
      {
        if j == |m.readBy| {
          assert s[i] == m.readBy[i];
        }
      }
    }
  }

  /** The messages after `BatchMarkMessagesAsRead` has walked `ids`: each stored one
      marked in turn, unknown ids skipped. */
  function MarkAll(messages: map<ObjectId, Message>, ids: seq<ObjectId>, user: ObjectId): map<ObjectId, Message> {
    if ids == [] then messages
    else
      var prev := MarkAll(messages, ids[..|ids| - 1], user);
      var id := ids[|ids| - 1];
      if id in prev then prev[id := MarkRead(prev[id], user)] else prev
  }

  /** Walking one more id marks its stored message, if any. */
  lemma MarkAllStep(messages: map<ObjectId, Message>, ids: seq<ObjectId>, i: nat, user: ObjectId)
    requires i < |ids|
    ensures var prev := MarkAll(messages, ids[..i], user);
            var id := ids[i];
            MarkAll(messages, ids[..i + 1], user)
              == if id in prev then prev[id := MarkRead(prev[id], user)] else prev
  {
    var a := ids[..i + 1];
    assert a[..|a| - 1] == ids[..i];
    assert a[|a| - 1] == ids[i];
  }

  /** Batch marking marks each listed stored message once, however often it is listed,
      and leaves the others and every key alone. */
  lemma {:induction false} MarkAllSpec(messages: map<ObjectId, Message>, ids: seq<ObjectId>, user: ObjectId)
    ensures var r := MarkAll(messages, ids, user);
            && r.Keys == messages.Keys
            && (forall id :: id in messages && id in ids ==> r[id] == MarkRead(messages[id], user))
            && (forall id :: id in messages && id !in ids ==> r[id] == messages[id])
  {
    if ids != [] {
      var init := ids[..|ids| - 1];
      var id := ids[|ids| - 1];
      MarkAllSpec(messages, init, user);
      var prev := MarkAll(messages, init, user);
      if id in prev {
        MarkReadTwice(messages[id], user);
      }
      assert ids == init + [id];
    }
  }

  /** The senders to notify after a batch: those of the listed stored messages, other
      than the reader. */
  function SendersOf(messages: map<ObjectId, Message>, ids: seq<ObjectId>, user: ObjectId): set<ObjectId> {
    set k | 0 <= k < |ids| && ids[k] in messages && messages[ids[k]].senderId != user :: messages[ids[k]].senderId
  }

  /** Walking one more id adds its stored message's sender, unless that is the reader. */
  lemma SendersOfStep(messages: map<ObjectId, Message>, ids: seq<ObjectId>, i: nat, user: ObjectId)
    requires i < |ids|
    ensures var id := ids[i];
            SendersOf(messages, ids[..i + 1], user)
              == SendersOf(messages, ids[..i], user)
                 + (if id in messages && messages[id].senderId != user then {messages[id].senderId} else {})
  {
    var a := ids[..i + 1];
    var b := ids[..i];
    var id := ids[i];
    var extra: set<ObjectId> := if id in messages && messages[id].senderId != user then {messages[id].senderId} else {};
    forall x | x in SendersOf(messages, a, user)
      ensures x in SendersOf(messages, b, user) + extra
    {
      var k :| 0 <= k < |a| && a[k] in messages && messages[a[k]].senderId != user && messages[a[k]].senderId == x;
      if k < i {
        assert b[k] == a[k];
      }
    }
    forall x | x in SendersOf(messages, b, user) + extra
      ensures x in SendersOf(messages, a, user)
    {
      if x in SendersOf(messages, b, user) {
        var k :| 0 <= k < |b| && b[k] in messages && messages[b[k]].senderId != user && messages[b[k]].senderId == x;
        assert a[k] == b[k];
      } else {
        assert a[i] == id;
      }
    }
  }

  /** The read receipts sent to `to`, in that order. */
  function ReadEvents(to: seq<ObjectId>, ids: seq<ObjectId>, user: ObjectId): (r: seq<Event>)
    ensures |r| == |to| && forall k :: 0 <= k < |to| ==> r[k] == ReadEvent(to[k], ids, user, Read)
  {
    seq(|to|, k requires 0 <= k < |to| => ReadEvent(to[k], ids, user, Read))
  }

  /** The message as `SendMessage` creates it. */
  function NewMessage(id: ObjectId, conv: Conversation, sender: ObjectId, content: string, now: int): Message {
    Message(id,
            if conv.kind == PersonalConversation then PersonalMessage else GroupMessage,
            conv.id,
            if conv.kind == PersonalConversation then None else Some(conv.id),
            sender, content, Sent, [sender], false, now, now)
  }

  /** The new-message events `SendMessage` emits, participant by participant. */
  function MessageEvents(participants: seq<ObjectId>, sender: ObjectId, msg: Message): seq<Event> {
    if participants == [] then []
    else
      var last := participants[|participants| - 1];
      MessageEvents(participants[..|participants| - 1], sender, msg)
        + (if last != sender then [MessageEvent(last, msg)] else [])
  }

  /** Every participant but the sender is told about the message, nobody else is, and
      over a list of distinct participants each is told exactly once. */
  lemma {:induction false} MessageEventsSpec(participants: seq<ObjectId>, sender: ObjectId, msg: Message)
    ensures var r := MessageEvents(participants, sender, msg);
            && (forall e :: e in r ==> e.MessageEvent? && e.message == msg && e.to in participants && e.to != sender)
            && (forall p :: p in participants && p != sender ==> MessageEvent(p, msg) in r)
            && (NoDup(participants) ==> NoDup(r))
  {
    if participants != [] {
      var init := participants[..|participants| - 1];
      var last := participants[|participants| - 1];
      MessageEventsSpec(init, sender, msg);
      assert participants == init + [last];
      var r0 := MessageEvents(init, sender, msg);
      if NoDup(participants) && last != sender {
        assert NoDup(init) by {
          forall i, j | 0 <= i < j < |init|
            ensures init[i] != init[j]
          {
            assert init[i] == participants[i] && init[j] == participants[j];
          }
        }
        assert last !in init;
        var r := r0 + [MessageEvent(last, msg)];
        forall i, j | 0 <= i < j < |r|
          ensures r[i] != r[j]
        {
          if j == |r0| {
            assert r0[i] in r0;
          }
        }
      }
    }
  }

  // ---------------------------------------------------------------- the scans

  /** The loop of `CreatePersonalConversation` over the conversation list. */
  method FindPersonal(list: seq<Conversation>, u1: ObjectId, u2: ObjectId) returns (r: Option<nat>)
    ensures r == FirstPersonal(list, u1, u2)
  {
    for i := 0 to |list|
      invariant forall j :: 0 <= j < i ==> !IsPersonalPair(list[j], u1, u2)
    {
      var c := list[i];
      var has1 := ContainsId(c.participants, u1);
      var has2 := ContainsId(c.participants, u2);
      if c.kind == PersonalConversation && |c.participants| == 2 && has1 && has2 {
        FirstPersonalAt(list, i, u1, u2);
        return Some(i);
      }
    }
    return None;
  }

  /** The loop of `GetMessages` over a conversation's messages, newest first. */
  method ScanNewest(ms: seq<Message>, limit: int, before: int) returns (result: seq<Message>)
    ensures result == NewestVisible(ms, limit, before)
  {
    result := [];
    var count := 0;
    var i := |ms| - 1;
    assert ms[..i + 1] == ms;
    while i >= 0 && count < limit
      invariant -1 <= i < |ms|
      invariant count == |result|
      invariant result + NewestVisible(ms[..i + 1], limit - count, before) == NewestVisible(ms, limit, before)
    {
      NewestVisibleStep(ms, i, limit - count, before);
      if ms[i].createdAt < before && !ms[i].isDeleted {
        assert result + [ms[i]] + NewestVisible(ms[..i], limit - count - 1, before)
            == result + ([ms[i]] + NewestVisible(ms[..i], limit - count - 1, before));
        result := result + [ms[i]];
        count := count + 1;
      }
      i := i - 1;
    }
    assert NewestVisible(ms[..i + 1], limit - count, before) == [];
  }

  /** The loops of `GetConversations` over the conversation list and each
      conversation's participants, stopping once `limit` are selected. */
  method SelectConversations(list: seq<Conversation>, userId: ObjectId, limit: int)
    returns (selected: seq<Conversation>)
    requires limit >= 1
    ensures selected == FirstWith(list, userId, limit)
  {
    selected := [];
    var i := 0;
    while i < |list|
      invariant 0 <= i <= |list|
      invariant |selected| < limit
      invariant selected + FirstWith(list[i..], userId, limit - |selected|) == FirstWith(list, userId, limit)
    {
      var conv := list[i];
      assert list[i..] == [conv] + list[i + 1..];
      ghost var before := selected;
      var j := 0;
      while j < |conv.participants|
        invariant 0 <= j <= |conv.participants|
        invariant userId !in conv.participants[..j]
        invariant selected == before
      {
        if conv.participants[j] == userId {
          selected := selected + [conv];
          break;
        }
        j := j + 1;
      }
      assert conv.participants[..|conv.participants|] == conv.participants;
      assert (userId in conv.participants && selected == before + [conv])
          || (userId !in conv.participants && selected == before);

      if |selected| >= limit {
        assert selected == FirstWith(list, userId, limit);
        return;
      }
      i := i + 1;
    }
  }

  // ---------------------------------------------------------------- the store

  /** Every stored record sits under its own id, below the counter. */
  ghost predicate IdsBelow(conversations: map<ObjectId, Conversation>, messages: map<ObjectId, Message>, nextId: ObjectId) {
    && (forall id :: id in conversations ==> conversations[id].id == id && id < nextId)
    && (forall id :: id in messages ==> messages[id].id == id && id < nextId)
  }

  /** The creation-ordered list holds each conversation exactly once. */
  ghost predicate ListMatches(conversations: map<ObjectId, Conversation>, conversationList: seq<ObjectId>) {
    NoDup(conversationList) && forall id :: id in conversationList <==> id in conversations
  }

  /** Every conversation has a message list, whose ids are stored messages of that
      conversation, and a last message is a stored one. */
  ghost predicate MessagesMatch(conversations: map<ObjectId, Conversation>, messages: map<ObjectId, Message>,
                                messagesByConv: map<ObjectId, seq<ObjectId>>) {
    && messagesByConv.Keys == conversations.Keys
    && (forall c, m :: c in messagesByConv && m in messagesByConv[c] ==>
          m in messages && messages[m].conversationId == c)
    && (forall c :: c in conversations && conversations[c].lastMessage.Some? ==>
          conversations[c].lastMessage.value in messages)
  }

  /** What the store keeps true. */
  ghost predicate StoreInvariant(conversations: map<ObjectId, Conversation>, conversationList: seq<ObjectId>,
                                 messages: map<ObjectId, Message>, messagesByConv: map<ObjectId, seq<ObjectId>>,
                                 nextId: ObjectId)
  {
    && IdsBelow(conversations, messages, nextId)
    && ListMatches(conversations, conversationList)
    && MessagesMatch(conversations, messages, messagesByConv)
  }

  /** Adding a new conversation under the next id, with an empty message list. */
  lemma InvariantAfterAdd(conversations: map<ObjectId, Conversation>, conversationList: seq<ObjectId>,
                          messages: map<ObjectId, Message>, messagesByConv: map<ObjectId, seq<ObjectId>>,
                          nextId: ObjectId, conv: Conversation,
                          conversations': map<ObjectId, Conversation>, conversationList': seq<ObjectId>,
                          messagesByConv': map<ObjectId, seq<ObjectId>>, nextId': ObjectId)
    requires StoreInvariant(conversations, conversationList, messages, messagesByConv, nextId)
    requires conv.id == nextId && conv.lastMessage.None?
    requires conversations' == conversations[conv.id := conv] && conversationList' == conversationList + [conv.id]
    requires messagesByConv' == messagesByConv[conv.id := []] && nextId' == nextId + 1
    ensures StoreInvariant(conversations', conversationList', messages, messagesByConv', nextId')
  {
    assert IdsBelow(conversations', messages, nextId');
    assert ListMatches(conversations', conversationList') by {
      assert conv.id !in conversationList;
      NoDupAppend(conversationList, conv.id);
    }
    assert MessagesMatch(conversations', messages, messagesByConv') by {
      forall c, m | c in messagesByConv' && m in messagesByConv'[c]
        ensures m in messages && messages[m].conversationId == c
      {
        assert c != conv.id;
        assert m in messagesByConv[c];
      }
    }
  }

  /** Storing a new message of a known conversation under the next id and making it the
      conversation's last message. */
  lemma InvariantAfterStore(conversations: map<ObjectId, Conversation>, conversationList: seq<ObjectId>,
                            messages: map<ObjectId, Message>, messagesByConv: map<ObjectId, seq<ObjectId>>,
                            nextId: ObjectId, msg: Message, now: int,
                            conversations': map<ObjectId, Conversation>, messages': map<ObjectId, Message>,
                            messagesByConv': map<ObjectId, seq<ObjectId>>, nextId': ObjectId)
    requires StoreInvariant(conversations, conversationList, messages, messagesByConv, nextId)
    requires msg.id == nextId && msg.conversationId in conversations
    requires var c := msg.conversationId;
             && conversations' == conversations[c := conversations[c].(lastMessage := Some(msg.id), updatedAt := now)]
             && messages' == messages[msg.id := msg]
             && messagesByConv' == messagesByConv[c := messagesByConv[c] + [msg.id]]
             && nextId' == nextId + 1
    ensures StoreInvariant(conversations', conversationList, messages', messagesByConv', nextId')
  {
    var c := msg.conversationId;
    assert IdsBelow(conversations', messages', nextId') by {
      forall id | id in conversations'
        ensures conversations'[id].id == id && id < nextId'
      {
        assert id in conversations;
      }
      forall id | id in messages'
        ensures messages'[id].id == id && id < nextId'
      {
        if id != msg.id {
          assert id in messages;
        }
      }
    }
    assert conversations'.Keys == conversations.Keys;
    assert MessagesMatch(conversations', messages', messagesByConv') by {
      forall c2, m | c2 in messagesByConv' && m in messagesByConv'[c2]
        ensures m in messages' && messages'[m].conversationId == c2
      {
        if c2 != c || m != msg.id {
          assert m in messagesByConv[c2];
          assert m in messages && messages[m].id == m;
          assert m != msg.id;
        }
      }
      forall c2 | c2 in conversations' && conversations'[c2].lastMessage.Some?
        ensures conversations'[c2].lastMessage.value in messages'
      {
        if c2 != c {
          assert conversations'[c2] == conversations[c2];
        }
      }
    }
  }

  /** Changing messages without changing their ids or conversations. */
  lemma InvariantAfterMarking(conversations: map<ObjectId, Conversation>, conversationList: seq<ObjectId>,
                              messages: map<ObjectId, Message>, marked: map<ObjectId, Message>,
                              messagesByConv: map<ObjectId, seq<ObjectId>>, nextId: ObjectId)
    requires StoreInvariant(conversations, conversationList, messages, messagesByConv, nextId)
    requires marked.Keys == messages.Keys
    requires forall id :: id in messages ==>
               marked[id].id == messages[id].id && marked[id].conversationId == messages[id].conversationId
    ensures StoreInvariant(conversations, conversationList, marked, messagesByConv, nextId)
  {
    assert IdsBelow(conversations, marked, nextId) by {
      forall id | id in marked
        ensures marked[id].id == id && id < nextId
      {
        assert id in messages;
      }
    }
    assert MessagesMatch(conversations, marked, messagesByConv) by {
      forall c, m | c in messagesByConv && m in messagesByConv[c]
        ensures m in marked && marked[m].conversationId == c
      {
        assert m in messages;
      }
    }
  }

  class MockChatService {
    var conversations: map<ObjectId, Conversation>
    var conversationList: seq<ObjectId>
    var messages: map<ObjectId, Message>
    var messagesByConv: map<ObjectId, seq<ObjectId>>
    /** The next object id to hand out. */
    var nextId: ObjectId
    /** The `SendToUser` calls made so far. */
    var outbox: seq<Event>

    ghost predicate Valid()
      reads this`conversations, this`conversationList, this`messages, this`messagesByConv, this`nextId
    {
      StoreInvariant(conversations, conversationList, messages, messagesByConv, nextId)
    }

    /** The conversations in creation order. */
    function Conversations(): (r: seq<Conversation>)
      requires Valid()
      reads this`conversations, this`conversationList, this`messages, this`messagesByConv, this`nextId
      ensures |r| == |conversationList|
    {
      Deref(conversationList, conversations)
    }

    /** `NewMockChatStore`: everything empty. */
    constructor ()
      ensures Valid()
      ensures conversations == map[] && conversationList == [] && messages == map[]
      ensures messagesByConv == map[] && outbox == []
    {
      conversations := map[];
      conversationList := [];
      messages := map[];
      messagesByConv := map[];
      nextId := 0;
      outbox := [];
    }

    /** Stores a new conversation with an empty message list. */
    method Add(conv: Conversation)
      requires Valid() && conv.id == nextId && conv.lastMessage.None?
      modifies this`conversations, this`conversationList, this`messagesByConv, this`nextId
      ensures Valid()
      ensures conversations == old(conversations)[conv.id := conv]
      ensures conversationList == old(conversationList) + [conv.id]
      ensures messagesByConv == old(messagesByConv)[conv.id := []]
      ensures nextId == old(nextId) + 1
    {
      conversations := conversations[conv.id := conv];
      conversationList := conversationList + [conv.id];
      messagesByConv := messagesByConv[conv.id := []];
      nextId := nextId + 1;
      InvariantAfterAdd(old(conversations), old(conversationList), messages, old(messagesByConv), old(nextId), conv,
                        conversations, conversationList, messagesByConv, nextId);
    }

    /** `CreatePersonalConversation`: the first personal two-member conversation that
        holds both users, or a new one with exactly these two participants. Afterwards
        the same search finds the returned conversation, so asking again does not create
        a second one. */
    method CreatePersonalConversation(userId1: ObjectId, userId2: ObjectId, now: int)
      returns (conv: Conversation)
      requires Valid()
      modifies this`conversations, this`conversationList, this`messagesByConv, this`nextId
      ensures Valid()
      ensures old(FirstPersonal(Conversations(), userId1, userId2)).Some? ==>
                conv == old(Conversations())[old(FirstPersonal(Conversations(), userId1, userId2)).value]
                && conversations == old(conversations) && conversationList == old(conversationList)
                && messagesByConv == old(messagesByConv) && nextId == old(nextId)
      ensures old(FirstPersonal(Conversations(), userId1, userId2)).None? ==>
                conv == Conversation(old(nextId), PersonalConversation, "", "", [userId1, userId2], [], None, now, now)
                && conversations == old(conversations)[conv.id := conv]
                && conversationList == old(conversationList) + [conv.id]
                && messagesByConv == old(messagesByConv)[conv.id := []]
                && nextId == old(nextId) + 1
      ensures var k := FirstPersonal(Conversations(), userId1, userId2);
              k.Some? && k.value < |conversationList| && conversationList[k.value] == conv.id
              && conversations[conv.id] == conv
    {
      var list := Conversations();
      var found := FindPersonal(list, userId1, userId2);
      if found.Some? {
        return list[found.value];
      }
      conv := Conversation(nextId, PersonalConversation, "", "", [userId1, userId2], [], None, now, now);
      Add(conv);
      assert Conversations() == list + [conv];
      FirstPersonalAt(Conversations(), |list|, userId1, userId2);
    }

    /** `CreateGroupConversation`: more than 20 given participants is an error, checked
        before the creator is added; otherwise a new group whose participants are the
        given ones with the creator appended when missing, and whose only admin is the
        creator. A group may therefore hold 21 members. */
    method CreateGroupConversation(name: string, image: string, creatorId: ObjectId,
                                   participants: seq<ObjectId>, now: int)
      returns (r: Result<Conversation, string>)
      requires Valid()
      modifies this`conversations, this`conversationList, this`messagesByConv, this`nextId
      ensures Valid()
      ensures |participants| > MaxGroupParticipants <==> r.Err?
      ensures r.Err? ==>
                r.error == ErrTooManyParticipants
                && conversations == old(conversations) && conversationList == old(conversationList)
                && messagesByConv == old(messagesByConv) && nextId == old(nextId)
      ensures r.Ok? ==>
                r.value == Conversation(old(nextId), GroupConversation, name, image,
                                        WithCreator(participants, creatorId), [creatorId], None, now, now)
                && |r.value.participants| <= MaxGroupParticipants + 1
                && conversations == old(conversations)[r.value.id := r.value]
                && conversationList == old(conversationList) + [r.value.id]
                && messagesByConv == old(messagesByConv)[r.value.id := []]
                && nextId == old(nextId) + 1
    {
      if |participants| > MaxGroupParticipants {
        return Err(ErrTooManyParticipants);
      }

      var hasCreator := false;
      var i := 0;
      while i < |participants|
        modifies {}
        invariant 0 <= i <= |participants|
        invariant !hasCreator && creatorId !in participants[..i]
      {
        if participants[i] == creatorId {
          hasCreator := true;
          break;
        }
        i := i + 1;
      }
      assert participants[..|participants|] == participants;
      assert hasCreator <==> creatorId in participants;
      var members := participants;
      if !hasCreator {
        members := members + [creatorId];
      }

      var conv := Conversation(nextId, GroupConversation, name, image, members, [creatorId], None, now, now);
      Add(conv);
      return Ok(conv);
    }

    /** Stores a new message of a known conversation and makes it the conversation's
        last message. */
    method Store(msg: Message, now: int)
      requires Valid() && msg.id == nextId && msg.conversationId in conversations
      modifies this`messages, this`messagesByConv, this`conversations, this`nextId
      ensures Valid()
      ensures messages == old(messages)[msg.id := msg]
      ensures messagesByConv == old(messagesByConv)[msg.conversationId := old(messagesByConv)[msg.conversationId] + [msg.id]]
      ensures conversations == old(conversations)[msg.conversationId :=
                old(conversations)[msg.conversationId].(lastMessage := Some(msg.id), updatedAt := now)]
      ensures nextId == old(nextId) + 1
    {
      var c := msg.conversationId;
      nextId := nextId + 1;
      messages := messages[msg.id := msg];
      messagesByConv := messagesByConv[c := messagesByConv[c] + [msg.id]];
      conversations := conversations[c := conversations[c].(lastMessage := Some(msg.id), updatedAt := now)];
      InvariantAfterStore(old(conversations), conversationList, old(messages), old(messagesByConv), old(nextId), msg, now,
                          conversations, messages, messagesByConv, nextId);
    }

    /** The loop of `SendMessage` that hands the new message to every participant but
        the sender. */
    method Notify(participants: seq<ObjectId>, senderId: ObjectId, msg: Message)
      modifies this`outbox
      ensures outbox == old(outbox) + MessageEvents(participants, senderId, msg)
    {
      for k := 0 to |participants|
        invariant outbox == old(outbox) + MessageEvents(participants[..k], senderId, msg)
      {
        assert participants[..k + 1][..k] == participants[..k];
        if participants[k] != senderId {
          outbox := outbox + [MessageEvent(participants[k], msg)];
        }
      }
      assert participants[..|participants|] == participants;
    }

    /** `SendMessage`: content over 2000 bytes, an unknown conversation and a sender who
        is not a participant are errors that change nothing. Otherwise the new message
        (read by its sender, status sent) is stored under its id and at the end of its
        conversation's list, becomes the conversation's last message, and every other
        participant is sent a new-message event. */
    method SendMessage(senderId: ObjectId, conversationId: ObjectId, content: string, now: int)
      returns (r: Result<Message, string>)
      requires Valid()
      modifies this
      ensures Valid()
      ensures Utf8Length(content) > MaxContentBytes ==> r == Err(ErrContentTooLong)
      ensures Utf8Length(content) <= MaxContentBytes && conversationId !in old(conversations) ==>
                r == Err(ErrNoConversation)
      ensures Utf8Length(content) <= MaxContentBytes && conversationId in old(conversations)
              && senderId !in old(conversations)[conversationId].participants ==>
                r == Err(ErrNoAccess)
      ensures Utf8Length(content) <= MaxContentBytes && conversationId in old(conversations)
              && senderId in old(conversations)[conversationId].participants ==>
                r.Ok?
      ensures r.Err? ==> unchanged(this)
      ensures r.Ok? ==>
                var conv := old(conversations)[conversationId];
                && Utf8Length(content) <= MaxContentBytes && senderId in conv.participants
                && r.value == NewMessage(old(nextId), conv, senderId, content, now)
                && messages == old(messages)[r.value.id := r.value]
                && messagesByConv == old(messagesByConv)[conversationId := old(messagesByConv)[conversationId] + [r.value.id]]
                && conversations == old(conversations)[conversationId := conv.(lastMessage := Some(r.value.id), updatedAt := now)]
                && conversationList == old(conversationList)
                && nextId == old(nextId) + 1
                && outbox == old(outbox) + MessageEvents(conv.participants, senderId, r.value)
    {
      if Utf8Length(content) > MaxContentBytes {
        return Err(ErrContentTooLong);
      }
      if conversationId !in conversations {
        return Err(ErrNoConversation);
      }
      var conv := conversations[conversationId];

      var hasAccess := false;
      var i := 0;
      while i < |conv.participants|
        modifies {}
        invariant 0 <= i <= |conv.participants|
        invariant !hasAccess && senderId !in conv.participants[..i]
      {
        if conv.participants[i] == senderId {
          hasAccess := true;
          break;
        }
        i := i + 1;
      }
      assert conv.participants[..|conv.participants|] == conv.participants;
      if !hasAccess {
        return Err(ErrNoAccess);
      }

      var msg := NewMessage(nextId, conv, senderId, content, now);
      Store(msg, now);

      Notify(conv.participants, senderId, msg);
      return Ok(msg);
    }

    /** `GetMessages`: the limit capped at 100; for an unknown conversation nothing;
        otherwise the stored messages scanned from the newest, keeping those created
        before `before` and not deleted until `limit` are kept. An unknown conversation
        gives an empty slice, while a known one with nothing kept gives a nil slice
        (`isNil`), which JSON encodes as `null`. */
    method GetMessages(conversationId: ObjectId, limit: int, before: int) returns (result: seq<Message>, isNil: bool)
      requires Valid()
      ensures isNil <==> conversationId in messagesByConv && result == []
      ensures conversationId !in messagesByConv ==> result == []
      ensures conversationId in messagesByConv ==>
                result == NewestVisible(Deref(messagesByConv[conversationId], messages),
                                        Min(limit, MaxMessagePage), before)
    {
      var lim := limit;
      if lim > MaxMessagePage {
        lim := MaxMessagePage;
      }
      if conversationId !in messagesByConv {
        return [], false;
      }
      var ms := Deref(messagesByConv[conversationId], messages);
      result := ScanNewest(ms, lim, before);
      isNil := result == [];
    }

    /** `MarkMessageAsRead`: an unknown id is an error; otherwise the reader is added to
        the message once and its status set to read on that first addition. */
    method MarkMessageAsRead(messageId: ObjectId, userId: ObjectId) returns (err: Option<string>)
      requires Valid()
      modifies this`messages
      ensures Valid()
      ensures messageId !in old(messages) <==> err == Some(ErrNoMessage)
      ensures err.None? <==> messageId in old(messages)
      ensures messageId !in old(messages) ==> messages == old(messages)
      ensures messageId in old(messages) ==>
                messages == old(messages)[messageId := MarkRead(old(messages)[messageId], userId)]
    {
      if messageId !in messages {
        return Some(ErrNoMessage);
      }
      var msg := messages[messageId];
      var seen := ContainsId(msg.readBy, userId);
      if !seen {
        messages := messages[messageId := msg.(readBy := msg.readBy + [userId], status := Read)];
      }
      assert messages == old(messages)[messageId := MarkRead(msg, userId)];
      InvariantAfterMarking(conversations, conversationList, old(messages), messages, messagesByConv, nextId);
      return None;
    }

    /** `BatchMarkMessagesAsRead`: nothing for an empty list; otherwise every listed
        stored message is marked read by the user (unknown ids skipped), and each
        distinct sender of those messages other than the reader gets one read receipt
        listing all the given ids. The receipts go out in the order the sender set is
        walked, given as `order`. */
    method BatchMarkMessagesAsRead(messageIds: seq<ObjectId>, userId: ObjectId)
      returns (ghost order: seq<ObjectId>)
      requires Valid()
      modifies this`messages, this`outbox
      ensures Valid()
      ensures messages == MarkAll(old(messages), messageIds, userId)
      ensures NoDup(order)
      ensures forall s :: s in order <==> s in SendersOf(old(messages), messageIds, userId)
      ensures outbox == old(outbox) + ReadEvents(order, messageIds, userId)
    {
      if |messageIds| == 0 {
        return [];
      }

      var senders := MarkEach(messageIds, userId);
      MarkAllSpec(old(messages), messageIds, userId);
      InvariantAfterMarking(conversations, conversationList, old(messages), messages, messagesByConv, nextId);
      order := SendReceipts(senders, messageIds, userId);
    }

    /** The first loop of `BatchMarkMessagesAsRead`: mark each listed stored message
        and collect the senders to notify. */
    method MarkEach(messageIds: seq<ObjectId>, userId: ObjectId) returns (senders: set<ObjectId>)
      modifies this`messages
      ensures messages == MarkAll(old(messages), messageIds, userId)
      ensures senders == SendersOf(old(messages), messageIds, userId)
    {
      senders := {};
      for i := 0 to |messageIds|
        invariant messages == MarkAll(old(messages), messageIds[..i], userId)
        invariant senders == SendersOf(old(messages), messageIds[..i], userId)
      {
        MarkAllStep(old(messages), messageIds, i, userId);
        SendersOfStep(old(messages), messageIds, i, userId);
        var id := messageIds[i];
        MarkAllSpec(old(messages), messageIds[..i], userId);
        assert id in messages <==> id in old(messages);
        assert id in messages ==> messages[id].senderId == old(messages)[id].senderId;
        if id in messages {
          var msg := messages[id];
          var seen := ContainsId(msg.readBy, userId);
          if !seen {
            messages := messages[id := msg.(readBy := msg.readBy + [userId], status := Read)];
          }
          if msg.senderId != userId {
            senders := senders + {msg.senderId};
          }
        }
      }
      assert messageIds[..|messageIds|] == messageIds;
    }

    /** The last loop of `BatchMarkMessagesAsRead`: one read receipt to each sender, in
        the order the set is walked. */
    method SendReceipts(senders: set<ObjectId>, messageIds: seq<ObjectId>, userId: ObjectId)
      returns (ghost order: seq<ObjectId>)
      modifies this`outbox
      ensures NoDup(order)
      ensures forall s :: s in order <==> s in senders
      ensures outbox == old(outbox) + ReadEvents(order, messageIds, userId)
    {
      order := [];
      assert ReadEvents(order, messageIds, userId) == [];
      var pending := senders;
      while pending != {}
        invariant pending <= senders
        invariant NoDup(order)
        invariant forall s :: s in order <==> s in senders && s !in pending
        invariant outbox == old(outbox) + ReadEvents(order, messageIds, userId)
        decreases |pending|
      {
        var s :| s in pending;
        outbox := outbox + [ReadEvent(s, messageIds, userId, Read)];
        assert s !in order;
        forall i, j | 0 <= i < j < |order + [s]|
          ensures (order + [s])[i] != (order + [s])[j]
        {
          if j == |order| {
            assert order[i] in order;
          }
        }
        order := order + [s];
        pending := pending - {s};
      }
    }

    /** `GetConversations`: the limit made 20 when not positive and at most 50; the
        first that many conversations in creation order that have the user as a
        participant, then ordered by latest update first. */
    method GetConversations(userId: ObjectId, limit: int) returns (result: seq<Conversation>)
      requires Valid()
      ensures SortedByUpdated(result)
      ensures multiset(result) == multiset(FirstWith(Conversations(), userId, ConversationPage(limit)))
    {
      var lim := limit;
      if lim <= 0 {
        lim := DefaultConversationPage;
      } else if lim > MaxConversationPage {
        lim := MaxConversationPage;
      }
      var selected := SelectConversations(Conversations(), userId, lim);
      result := SortByUpdated(selected);
    }
  }
}
