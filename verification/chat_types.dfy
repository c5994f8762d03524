/** The records the chat store keeps: messages and conversations, as the client holds
    them after the server's JSON has been decoded. Timestamps are milliseconds. */
module ChatTypes {
  import opened Common

  type Id = string

  datatype Message = Message(
    id: Id,
    conversationId: Id,
    senderId: Id,
    content: string,
    createdAt: int,
    isTemp: bool,
    status: string,
    read: bool)

  datatype Conversation = Conversation(
    id: Id,
    name: string,
    participants: seq<Id>,
    lastMessage: Option<Message>,
    updatedAt: int)

  /** Some message of `s` carries the id. */
  predicate HasId(s: seq<Message>, id: Id) {
    exists i :: 0 <= i < |s| && s[i].id == id
  }

  /** No two messages of `s` share an id. */
  predicate DistinctIds(s: seq<Message>) {
    forall i, j :: 0 <= i < j < |s| ==> s[i].id != s[j].id
  }

  /** `s[i]` is the last message of `s` with its id. */
  predicate LastWithId(s: seq<Message>, i: int)
    requires 0 <= i < |s|
  {
    forall j :: i < j < |s| ==> s[j].id != s[i].id
  }

  /** Messages in non-decreasing `createdAt` order. */
  predicate SortedByDate(s: seq<Message>) {
    forall i, j :: 0 <= i < j < |s| ==> s[i].createdAt <= s[j].createdAt
  }
}
