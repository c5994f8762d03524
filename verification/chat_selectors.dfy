/** The derived selectors of the chat store: total lookups that fall back to a default
    when the key is absent, and membership tests. Each takes the part of the state that
    its input selector extracts. */
module ChatSelectors {
  import opened Common
  import opened ChatTypes

  /** `conversations.find(conv => conv.id === conversationId)`. */
  function SelectConversationById(conversations: seq<Conversation>, conversationId: Id): (r: Option<Conversation>)
    ensures r.None? <==> forall k :: 0 <= k < |conversations| ==> conversations[k].id != conversationId
    ensures r.Some? ==> exists k :: 0 <= k < |conversations| && conversations[k] == r.value
                          && r.value.id == conversationId
                          && forall j :: 0 <= j < k ==> conversations[j].id != conversationId
  {
    if conversations == [] then None
    else if conversations[0].id == conversationId then Some(conversations[0])
    else
      var r := SelectConversationById(conversations[1..], conversationId);
      assert forall k :: 1 <= k < |conversations| ==> conversations[k] == conversations[1..][k - 1];
      r
  }

  /** `messages[conversationId] || []`: a stored list is returned as it is (an array is
      never falsy), a missing one reads as empty. */
  function SelectMessagesByConversationId(messages: map<Id, seq<Message>>, conversationId: Id): (r: seq<Message>)
    ensures conversationId in messages ==> r == messages[conversationId]
    ensures conversationId !in messages ==> r == []
  {
    if conversationId in messages then messages[conversationId] else []
  }

  /** `unreadCounts[conversationId] || 0`. */
  function SelectUnreadCountByConversationId(unreadCounts: map<Id, int>, conversationId: Id): (r: int)
    ensures conversationId in unreadCounts ==> r == unreadCounts[conversationId]
    ensures conversationId !in unreadCounts ==> r == 0
  {
    if conversationId in unreadCounts then unreadCounts[conversationId] else 0
  }

  /** `typingUsers[conversationId] || []`. */
  function SelectIsTyping(typingUsers: map<Id, seq<Id>>, conversationId: Id): (r: seq<Id>)
    ensures conversationId in typingUsers ==> r == typingUsers[conversationId]
    ensures conversationId !in typingUsers ==> r == []
  {
    if conversationId in typingUsers then typingUsers[conversationId] else []
  }

  /** `onlineUsers.includes(userId)`. */
  function SelectIsOnline(onlineUsers: seq<Id>, userId: Id): (r: bool)
    ensures r <==> exists k :: 0 <= k < |onlineUsers| && onlineUsers[k] == userId
  {
    userId in onlineUsers
  }

  /** `sendingMessages.includes(messageId)`; the list may hold `undefined` entries (`None`),
      which no message id equals. */
  function SelectIsSendingMessage(sendingMessages: seq<Option<Id>>, messageId: Id): (r: bool)
    ensures r <==> exists k :: 0 <= k < |sendingMessages| && sendingMessages[k] == Some(messageId)
  {
    Some(messageId) in sendingMessages
  }
}
