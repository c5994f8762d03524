/** The chat slice of the Redux store: the reducers that update messages, conversations,
    the typing/online/selected lists, the unread counters and the sending list in place,
    and the async-thunk cases for loading, sending, reading and deleting. */
module ChatSlice {
  import opened Common
  import opened ChatTypes
  import opened ChatUtils
  import opened ChatSelectors

  // ---------------------------------------------------------------- list helpers

  /** `list.findIndex(msg => msg.id === id)`. */
  function FindIndex(s: seq<Message>, id: Id): (r: int)
    ensures -1 <= r < |s|
    ensures r == -1 <==> !HasId(s, id)
    ensures r >= 0 ==> s[r].id == id && forall k :: 0 <= k < r ==> s[k].id != id
  {
    if s == [] then -1
    else if s[0].id == id then 0
    else
      var r := FindIndex(s[1..], id);
      assert forall k :: 1 <= k < |s| ==> s[k] == s[1..][k - 1];
      if r == -1 then -1 else r + 1
  }

  /** `conversations.findIndex(conv => conv.id === id)`. */
  function FindConversationIndex(s: seq<Conversation>, id: Id): (r: int)
    ensures -1 <= r < |s|
    ensures r == -1 <==> forall k :: 0 <= k < |s| ==> s[k].id != id
    ensures r >= 0 ==> s[r].id == id && forall k :: 0 <= k < r ==> s[k].id != id
  {
    if s == [] then -1
    else if s[0].id == id then 0
    else
      var r := FindConversationIndex(s[1..], id);
      assert forall k :: 1 <= k < |s| ==> s[k] == s[1..][k - 1];
      if r == -1 then -1 else r + 1
  }

  /** Replacing the first entry with the message's id, or pushing the message when there
      is none, is exactly a Map `set` on the list. */
  lemma {:induction false} UpsertIsMapSet(s: seq<Message>, x: Message)
    ensures MapSet(s, x) == if FindIndex(s, x.id) == -1 then s + [x] else s[FindIndex(s, x.id) := x]
  {
    if s != [] && s[0].id != x.id {
      UpsertIsMapSet(s[1..], x);
      assert s == [s[0]] + s[1..];
    }
  }

  /** `addMessage` grows the list by one exactly when the id was new. */
  lemma {:induction false} MapSetLength(s: seq<Message>, x: Message)
    ensures |MapSet(s, x)| == if HasId(s, x.id) then |s| else |s| + 1
  {
    UpsertIsMapSet(s, x);
  }

  /** The conversation list after `addMessage`: the first conversation with that id takes
      the message as its last message and its time as `updatedAt`. */
  function TouchConversation(s: seq<Conversation>, id: Id, msg: Message): seq<Conversation> {
    var ci := FindConversationIndex(s, id);
    if ci == -1 then s else s[ci := s[ci].(lastMessage := Some(msg), updatedAt := msg.createdAt)]
  }

  /** Only the first conversation with that id changes, and only in its last message and
      `updatedAt`; the list keeps its length and order. */
  lemma TouchConversationSpec(s: seq<Conversation>, id: Id, msg: Message)
    ensures |TouchConversation(s, id, msg)| == |s|
    ensures forall k :: 0 <= k < |s| ==>
      TouchConversation(s, id, msg)[k]
        == s[k].(lastMessage := TouchConversation(s, id, msg)[k].lastMessage,
                 updatedAt := TouchConversation(s, id, msg)[k].updatedAt)
    ensures forall k :: 0 <= k < |s| && TouchConversation(s, id, msg)[k] != s[k] ==>
      s[k].id == id && forall j :: 0 <= j < k ==> s[j].id != id
    ensures forall k :: 0 <= k < |s| && s[k].id == id && (forall j :: 0 <= j < k ==> s[j].id != id) ==>
      TouchConversation(s, id, msg)[k].lastMessage == Some(msg)
      && TouchConversation(s, id, msg)[k].updatedAt == msg.createdAt
  {
  }

  /** `updateMessageStatus` on one conversation's list: the first message with the id
      takes the new status. */
  function SetStatusFirst(s: seq<Message>, id: Id, status: string): seq<Message> {
    var i := FindIndex(s, id);
    if i == -1 then s else s[i := s[i].(status := status)]
  }

  /** Only the `status` field of the first message with the id changes. */
  lemma SetStatusFirstSpec(s: seq<Message>, id: Id, status: string)
    ensures |SetStatusFirst(s, id, status)| == |s|
    ensures forall k :: 0 <= k < |s| ==> SetStatusFirst(s, id, status)[k] == s[k].(status := SetStatusFirst(s, id, status)[k].status)
    ensures forall k :: 0 <= k < |s| && SetStatusFirst(s, id, status)[k] != s[k] ==>
      s[k].id == id && forall j :: 0 <= j < k ==> s[j].id != id
    ensures HasId(s, id) ==> SetStatusFirst(s, id, status)[FindIndex(s, id)].status == status
    ensures DistinctIds(s) ==> DistinctIds(SetStatusFirst(s, id, status))
  {
  }

  /** `markMessagesAsRead.fulfilled` on one conversation's list. */
  function MarkRead(s: seq<Message>, ids: seq<Id>): seq<Message> {
    seq(|s|, k requires 0 <= k < |s| => if s[k].id in ids then s[k].(read := true) else s[k])
  }

  /** Exactly the listed messages become read; nothing else changes. */
  lemma MarkReadSpec(s: seq<Message>, ids: seq<Id>)
    ensures |MarkRead(s, ids)| == |s|
    ensures forall k :: 0 <= k < |s| ==> MarkRead(s, ids)[k] == s[k].(read := MarkRead(s, ids)[k].read)
    ensures forall k :: 0 <= k < |s| ==> MarkRead(s, ids)[k].read == (s[k].read || s[k].id in ids)
    ensures DistinctIds(s) ==> DistinctIds(MarkRead(s, ids))
  {
  }

  /** The sending list is keyed by the thunk argument's `tempId` on `pending` but by the
      `tempId` the thunk generates on `fulfilled`; when they differ (the caller passes
      none), the entry pushed on `pending` outlives the successful send. */
  lemma PendingEntryOutlivesSuccess(s: seq<Option<Id>>, argTempId: Option<Id>, tempId: Id)
    requires argTempId != Some(tempId)
    ensures argTempId in RemoveAll(s + [argTempId], Some(tempId))
  {
    RemoveAllSpec(s + [argTempId], Some(tempId));
    assert argTempId in s + [argTempId];
  }

  // ---------------------------------------------------------------- the store

  class ChatState {
    var conversations: seq<Conversation>
    var messages: map<Id, seq<Message>>
    var activeConversation: JsValue
    var loading: bool
    var loadingMore: bool
    var error: JsValue
    var message: JsValue
    var connectionStatus: string
    var onlineUsers: seq<Id>
    var typingUsers: map<Id, seq<Id>>
    var selectedMessages: seq<Id>
    var unreadCounts: map<Id, int>
    var loadingConversations: bool
    var loadingMessages: bool
    var sendingMessages: seq<Option<Id>>

    /** The set-like lists hold no duplicates and no conversation's list holds two
        messages with the same id. */
    ghost predicate Valid()
      reads this
    {
      && NoDup(onlineUsers)
      && NoDup(selectedMessages)
      && (forall c :: c in typingUsers ==> NoDup(typingUsers[c]))
      && (forall c :: c in messages ==> DistinctIds(messages[c]))
    }

    /** `initialState`. */
    constructor ()
      ensures Valid()
      ensures conversations == [] && messages == map[] && activeConversation == Null
      ensures !loading && !loadingMore && error == Null && message == Null
      ensures connectionStatus == "disconnected"
      ensures onlineUsers == [] && typingUsers == map[] && selectedMessages == []
      ensures unreadCounts == map[] && !loadingConversations && !loadingMessages
      ensures sendingMessages == []
    {
      conversations := [];
      messages := map[];
      activeConversation := Null;
      loading := false;
      loadingMore := false;
      error := Null;
      message := Null;
      connectionStatus := "disconnected";
      onlineUsers := [];
      typingUsers := map[];
      selectedMessages := [];
      unreadCounts := map[];
      loadingConversations := false;
      loadingMessages := false;
      sendingMessages := [];
    }

    method SetActiveConversation(payload: JsValue)
      modifies this`activeConversation
      ensures activeConversation == payload
    {
      activeConversation := payload;
    }

    method SetConnectionStatus(payload: string)
      modifies this`connectionStatus
      ensures connectionStatus == payload
    {
      connectionStatus := payload;
    }

    /** `addMessage`: replace the message with the same id in place, or push it; then
        update the conversation's last message. Neither list is re-sorted. */
    method AddMessage(msg: Message)
      requires Valid()
      modifies this`messages, this`conversations
      ensures Valid()
      ensures messages == old(messages)[msg.conversationId :=
                MapSet(SelectMessagesByConversationId(old(messages), msg.conversationId), msg)]
      ensures msg in messages[msg.conversationId]
      ensures |messages[msg.conversationId]| ==
                |SelectMessagesByConversationId(old(messages), msg.conversationId)|
                + (if HasId(SelectMessagesByConversationId(old(messages), msg.conversationId), msg.id) then 0 else 1)
      ensures conversations == TouchConversation(old(conversations), msg.conversationId, msg)
    {
      var conversationId := msg.conversationId;
      if conversationId !in messages {
        messages := messages[conversationId := []];
      }
      var list := messages[conversationId];
      var existingIndex := FindIndex(list, msg.id);
      UpsertIsMapSet(list, msg);
      MapSetLength(list, msg);
      MapSetDistinct(list, msg);
      MapSetMembers(list, msg, msg);
      if existingIndex == -1 {
        list := list + [msg];
      } else {
        list := list[existingIndex := msg];
      }
      messages := messages[conversationId := list];
      var conversationIndex := FindConversationIndex(conversations, conversationId);
      if conversationIndex != -1 {
        conversations := conversations[conversationIndex :=
          conversations[conversationIndex].(lastMessage := Some(msg), updatedAt := msg.createdAt)];
      }
    }

    /** `updateMessageStatus`: in every conversation, the first message with the id takes
        the new status. */
    method UpdateMessageStatus(id: Id, status: string)
      requires Valid()
      modifies this`messages
      ensures Valid()
      ensures messages.Keys == old(messages).Keys
      ensures forall c :: c in messages ==> messages[c] == SetStatusFirst(old(messages)[c], id, status)
    {
      var before := messages;
      var updated := messages;
      var keys := updated.Keys;
      while keys != {}
        invariant keys <= updated.Keys && updated.Keys == before.Keys
        invariant forall c :: c in updated ==>
          updated[c] == if c in keys then before[c] else SetStatusFirst(before[c], id, status)
        decreases keys
      {
        var c :| c in keys;
        var list := updated[c];
        var messageIndex := FindIndex(list, id);
        if messageIndex != -1 {
          updated := updated[c := list[messageIndex := list[messageIndex].(status := status)]];
        }
        keys := keys - {c};
      }
      forall c | c in updated ensures DistinctIds(updated[c]) {
        SetStatusFirstSpec(before[c], id, status);
      }
      messages := updated;
    }

    /** `updateTypingStatus`: the conversation's list is created if missing; a typing
        user is added once, a user who stopped typing is removed everywhere in it. */
    method UpdateTypingStatus(conversationId: Id, userId: Id, isTyping: bool)
      requires Valid()
      modifies this`typingUsers
      ensures Valid()
      ensures typingUsers == old(typingUsers)[conversationId :=
        var list := SelectIsTyping(old(typingUsers), conversationId);
        if isTyping then AppendIfAbsent(list, userId) else RemoveAll(list, userId)]
      ensures isTyping <==> userId in typingUsers[conversationId]
    {
      if conversationId !in typingUsers {
        typingUsers := typingUsers[conversationId := []];
      }
      var list := typingUsers[conversationId];
      if isTyping && userId !in list {
        list := list + [userId];
      } else if !isTyping {
        RemoveAllSpec(list, userId);
        RemoveAllNoDup(list, userId);
        list := RemoveAll(list, userId);
      }
      typingUsers := typingUsers[conversationId := list];
    }

    method AddOnlineUser(userId: Id)
      requires Valid()
      modifies this`onlineUsers
      ensures Valid()
      ensures onlineUsers == AppendIfAbsent(old(onlineUsers), userId)
    {
      if userId !in onlineUsers {
        onlineUsers := onlineUsers + [userId];
      }
    }

    method RemoveOnlineUser(userId: Id)
      requires Valid()
      modifies this`onlineUsers
      ensures Valid()
      ensures onlineUsers == RemoveAll(old(onlineUsers), userId)
      ensures userId !in onlineUsers
    {
      RemoveAllSpec(onlineUsers, userId);
      RemoveAllNoDup(onlineUsers, userId);
      onlineUsers := RemoveAll(onlineUsers, userId);
    }

    method SelectMessage(messageId: Id)
      requires Valid()
      modifies this`selectedMessages
      ensures Valid()
      ensures selectedMessages == AppendIfAbsent(old(selectedMessages), messageId)
    {
      if messageId !in selectedMessages {
        selectedMessages := selectedMessages + [messageId];
      }
    }

    method DeselectMessage(messageId: Id)
      requires Valid()
      modifies this`selectedMessages
      ensures Valid()
      ensures selectedMessages == RemoveAll(old(selectedMessages), messageId)
      ensures messageId !in selectedMessages
    {
      RemoveAllSpec(selectedMessages, messageId);
      RemoveAllNoDup(selectedMessages, messageId);
      selectedMessages := RemoveAll(selectedMessages, messageId);
    }

    method ClearSelectedMessages()
      requires Valid()
      modifies this`selectedMessages
      ensures Valid()
      ensures selectedMessages == []
    {
      selectedMessages := [];
    }

    /** A missing counter reads as 0 before the increment. */
    method IncrementUnreadCount(conversationId: Id)
      modifies this`unreadCounts
      ensures unreadCounts == old(unreadCounts)[conversationId :=
        SelectUnreadCountByConversationId(old(unreadCounts), conversationId) + 1]
    {
      var current := if conversationId in unreadCounts then unreadCounts[conversationId] else 0;
      unreadCounts := unreadCounts[conversationId := current + 1];
    }

    method ClearUnreadCount(conversationId: Id)
      modifies this`unreadCounts
      ensures unreadCounts == old(unreadCounts)[conversationId := 0]
    {
      unreadCounts := unreadCounts[conversationId := 0];
    }

    /** Pushes without checking for duplicates. */
    method AddSendingMessage(payload: Option<Id>)
      modifies this`sendingMessages
      ensures sendingMessages == old(sendingMessages) + [payload]
    {
      sendingMessages := sendingMessages + [payload];
    }

    method RemoveSendingMessage(payload: Option<Id>)
      modifies this`sendingMessages
      ensures sendingMessages == RemoveAll(old(sendingMessages), payload)
      ensures payload !in sendingMessages
    {
      RemoveAllSpec(sendingMessages, payload);
      sendingMessages := RemoveAll(sendingMessages, payload);
    }

    // ------------------------------------------------------------ getMessages

    method GetMessagesPending()
      modifies this`loadingMessages, this`error
      ensures loadingMessages && error == Null
    {
      loadingMessages := true;
      error := Null;
    }

    /** The fetched page is merged into the stored list (or into an empty one). */
    method GetMessagesFulfilled(conversationId: Id, fetched: seq<Message>)
      requires Valid()
      modifies this`loadingMessages, this`messages
      ensures Valid()
      ensures !loadingMessages
      ensures messages == old(messages)[conversationId :=
        MergeSpec(SelectMessagesByConversationId(old(messages), conversationId), fetched)]
      ensures SortedByDate(messages[conversationId])
    {
      loadingMessages := false;
      var merged := MergeMessages(SelectMessagesByConversationId(messages, conversationId), fetched);
      messages := messages[conversationId := merged];
    }

    method GetMessagesRejected(payload: JsValue)
      modifies this`loadingMessages, this`error
      ensures !loadingMessages && error == payload
    {
      loadingMessages := false;
      error := payload;
    }

    // ------------------------------------------------------------ sendMessage

    /** Pushes `meta.arg.tempId`, which is `None` when the caller passes no `tempId`. */
    method SendMessagePending(argTempId: Option<Id>)
      modifies this`sendingMessages
      ensures sendingMessages == old(sendingMessages) + [argTempId]
    {
      sendingMessages := sendingMessages + [argTempId];
    }

    /** Merges the confirmed message and drops the `tempId` the thunk generated from the
        sending list. */
    method SendMessageFulfilled(conversationId: Id, tempId: Id, msg: Message)
      requires Valid()
      modifies this`messages, this`sendingMessages
      ensures Valid()
      ensures messages == old(messages)[conversationId :=
        MergeSpec(SelectMessagesByConversationId(old(messages), conversationId), [msg])]
      ensures msg in messages[conversationId]
      ensures sendingMessages == RemoveAll(old(sendingMessages), Some(tempId))
    {
      var merged := MergeMessages(SelectMessagesByConversationId(messages, conversationId), [msg]);
      MergeKeepsIncoming(SelectMessagesByConversationId(messages, conversationId), [msg], 0);
      messages := messages[conversationId := merged];
      sendingMessages := RemoveAll(sendingMessages, Some(tempId));
    }

    method SendMessageRejected(argTempId: Option<Id>, payload: JsValue)
      modifies this`sendingMessages, this`error
      ensures sendingMessages == RemoveAll(old(sendingMessages), argTempId)
      ensures error == payload
    {
      sendingMessages := RemoveAll(sendingMessages, argTempId);
      error := payload;
    }

    // ------------------------------------------------------------ read, delete

    /** Sets `read` on the listed messages of a stored conversation and resets its unread
        count to 0 (the count is reset even when no list is stored). */
    method MarkMessagesAsReadFulfilled(conversationId: Id, messageIds: seq<Id>)
      requires Valid()
      modifies this`messages, this`unreadCounts
      ensures Valid()
      ensures messages == if conversationId in old(messages)
                          then old(messages)[conversationId := MarkRead(old(messages)[conversationId], messageIds)]
                          else old(messages)
      ensures unreadCounts == old(unreadCounts)[conversationId := 0]
    {
      if conversationId in messages {
        MarkReadSpec(messages[conversationId], messageIds);
        messages := messages[conversationId := MarkRead(messages[conversationId], messageIds)];
      }
      unreadCounts := unreadCounts[conversationId := 0];
    }

    method DeleteMessageFulfilled(conversationId: Id, messageId: Id)
      requires Valid()
      modifies this`messages
      ensures Valid()
      ensures messages == if conversationId in old(messages)
                          then old(messages)[conversationId := MapDelete(old(messages)[conversationId], messageId)]
                          else old(messages)
      ensures conversationId in messages ==> !HasId(messages[conversationId], messageId)
    {
      if conversationId in messages {
        MapDeleteDistinct(messages[conversationId], messageId);
        MapDeleteKeys(messages[conversationId], messageId, messageId);
        messages := messages[conversationId := MapDelete(messages[conversationId], messageId)];
      }
    }

    /** Removes the conversation, its message list and its unread counter; the active
        conversation is cleared only when it is that id (an active conversation stored
        as an object never equals an id). */
    method DeleteConversationFulfilled(conversationId: Id)
      requires Valid()
      modifies this`conversations, this`activeConversation, this`messages, this`unreadCounts
      ensures Valid()
      ensures conversations == RemoveConversation(old(conversations), conversationId)
      ensures activeConversation == if old(activeConversation) == Str(conversationId) then Null else old(activeConversation)
      ensures messages == old(messages) - {conversationId}
      ensures unreadCounts == old(unreadCounts) - {conversationId}
    {
      conversations := RemoveConversation(conversations, conversationId);
      if activeConversation == Str(conversationId) {
        activeConversation := Null;
      }
      messages := messages - {conversationId};
      unreadCounts := unreadCounts - {conversationId};
    }
  }

  /** `conversations.filter(conv => conv.id !== id)`. */
  function RemoveConversation(s: seq<Conversation>, id: Id): seq<Conversation> {
    if s == [] then [] else (if s[0].id == id then [] else [s[0]]) + RemoveConversation(s[1..], id)
  }

  /** The filter drops every conversation with the id and keeps the others in order. */
  lemma {:induction false} RemoveConversationSpec(s: seq<Conversation>, id: Id)
    ensures forall c :: c in RemoveConversation(s, id) <==> c in s && c.id != id
    ensures |RemoveConversation(s, id)| <= |s|
    ensures (forall k :: 0 <= k < |s| ==> s[k].id != id) ==> RemoveConversation(s, id) == s
  {
    if s != [] {
      RemoveConversationSpec(s[1..], id);
      assert s == [s[0]] + s[1..];
    }
  }
}
