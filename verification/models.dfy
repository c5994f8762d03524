/** The records of the Go backend (`models/user.go`, `models/message.go`,
    `models/conversation.go`) and the response a conversation is turned into. Object ids
    are natural numbers and times are integer milliseconds. */
module Models {
  import opened Common

  type ObjectId = nat

  /** `models.UserStatus` is a string type: any string can be stored. */
  type UserStatus = string

  const StatusOnline: UserStatus := "online"
  const StatusOffline: UserStatus := "offline"
  const StatusBusy: UserStatus := "busy"

  datatype User = User(
    id: ObjectId,
    email: string,
    password: string,
    name: string,
    avatar: string,
    status: UserStatus,
    createdAt: int,
    updatedAt: int)

  /** The public view of a user: no password hash and no times. */
  datatype UserResponse = UserResponse(
    id: ObjectId,
    email: string,
    name: string,
    avatar: string,
    status: UserStatus)

  /** `User.ToResponse`. */
  function UserResponseOf(u: User): UserResponse {
    UserResponse(u.id, u.email, u.name, u.avatar, u.status)
  }

  datatype MessageType = PersonalMessage | GroupMessage

  datatype MessageStatus = Sent | Delivered | Read

  /** A message. `groupId` is `None` where the record leaves the zero id, that is for
      messages of personal conversations. */
  datatype Message = Message(
    id: ObjectId,
    kind: MessageType,
    conversationId: ObjectId,
    groupId: Option<ObjectId>,
    senderId: ObjectId,
    content: string,
    status: MessageStatus,
    readBy: seq<ObjectId>,
    isDeleted: bool,
    createdAt: int,
    updatedAt: int)

  datatype MessageResponse = MessageResponse(
    id: ObjectId,
    kind: MessageType,
    conversationId: ObjectId,
    groupId: Option<ObjectId>,
    sender: UserResponse,
    content: string,
    status: MessageStatus,
    readCount: nat,
    createdAt: int)

  datatype ConversationType = PersonalConversation | GroupConversation

  /** A conversation. The last message is referred to by its id: the store keeps the
      message itself, so later changes to it are seen through the conversation. */
  datatype Conversation = Conversation(
    id: ObjectId,
    kind: ConversationType,
    name: string,
    image: string,
    participants: seq<ObjectId>,
    admins: seq<ObjectId>,
    lastMessage: Option<ObjectId>,
    createdAt: int,
    updatedAt: int)

  datatype ConversationResponse = ConversationResponse(
    id: ObjectId,
    kind: ConversationType,
    name: string,
    image: string,
    participants: seq<UserResponse>,
    admins: seq<UserResponse>,
    lastMessage: Option<MessageResponse>,
    createdAt: int)

  // ---------------------------------------------------------------- the admin list

  /** The admin entries built for the participants `ps`, one per participant whose id
      is among `admins`, extended participant by participant. */
  function AdminsOf(admins: seq<ObjectId>, ps: seq<User>): seq<UserResponse> {
    if ps == [] then []
    else
      var last := ps[|ps| - 1];
      AdminsOf(admins, ps[..|ps| - 1]) + (if last.id in admins then [UserResponseOf(last)] else [])
  }

  /** The positions of the participants whose id is among `admins`, ascending. */
  function AdminPositions(admins: seq<ObjectId>, ps: seq<User>): seq<nat> {
    if ps == [] then []
    else AdminPositions(admins, ps[..|ps| - 1]) + (if ps[|ps| - 1].id in admins then [|ps| - 1] else [])
  }

  /** The positions are in range, strictly ascending, and are exactly those of the
      participants whose id is an admin id. */
  lemma {:induction false} AdminPositionsExact(admins: seq<ObjectId>, ps: seq<User>)
    ensures var pos := AdminPositions(admins, ps);
            && (forall k :: 0 <= k < |pos| ==> pos[k] < |ps|)
            && (forall k, l :: 0 <= k < l < |pos| ==> pos[k] < pos[l])
            && (forall i :: 0 <= i < |ps| ==> (i in pos <==> ps[i].id in admins))
  {
    if ps != [] {
      var n := |ps| - 1;
      var init := ps[..n];
      AdminPositionsExact(admins, init);
      var pos0 := AdminPositions(admins, init);
      var pos := AdminPositions(admins, ps);
      assert pos == pos0 + (if ps[n].id in admins then [n] else []);
      forall i | 0 <= i < n
        ensures (i in pos <==> ps[i].id in admins)
      {
        assert init[i] == ps[i];
      }
    }
  }

  /** The k-th admin entry is the view of the participant at the k-th position. */
  lemma {:induction false} AdminsOfAtPositions(admins: seq<ObjectId>, ps: seq<User>)
    ensures var pos := AdminPositions(admins, ps);
            var r := AdminsOf(admins, ps);
            && |r| == |pos|
            && (forall k :: 0 <= k < |pos| ==> pos[k] < |ps| && r[k] == UserResponseOf(ps[pos[k]]))
  {
    AdminPositionsExact(admins, ps);
    if ps != [] {
      var n := |ps| - 1;
      var init := ps[..n];
      AdminsOfAtPositions(admins, init);
      AdminPositionsExact(admins, init);
      var pos0 := AdminPositions(admins, init);
      forall k | 0 <= k < |pos0|
        ensures init[pos0[k]] == ps[pos0[k]]
      {
      }
    }
  }

  /** The admin list is exactly the participants whose id is an admin id, taken in
      participant order: the k-th entry comes from the k-th such position, the positions
      ascend strictly (so no participant appears twice), and every position whose id is
      an admin id is among them. */
  lemma AdminsOfExact(admins: seq<ObjectId>, ps: seq<User>)
    ensures var pos := AdminPositions(admins, ps);
            var r := AdminsOf(admins, ps);
            && |r| == |pos|
            && (forall k :: 0 <= k < |pos| ==> pos[k] < |ps| && r[k] == UserResponseOf(ps[pos[k]]))
            && (forall k, l :: 0 <= k < l < |pos| ==> pos[k] < pos[l])
            && (forall i :: 0 <= i < |ps| ==> (i in pos <==> ps[i].id in admins))
  {
    AdminPositionsExact(admins, ps);
    AdminsOfAtPositions(admins, ps);
  }

  /** Without admin ids the admin list is empty. */
  lemma {:induction false} AdminsOfNone(ps: seq<User>)
    ensures AdminsOf([], ps) == []
  {
    if ps != [] {
      AdminsOfNone(ps[..|ps| - 1]);
    }
  }

  /** Only the set of admin ids matters: repeating an id in `Admins`, or reordering the
      ids, gives the same admin list. */
  lemma {:induction false} AdminsOfSameIds(a1: seq<ObjectId>, a2: seq<ObjectId>, ps: seq<User>)
    requires forall x :: x in a1 <==> x in a2
    ensures AdminsOf(a1, ps) == AdminsOf(a2, ps)
  {
    if ps != [] {
      AdminsOfSameIds(a1, a2, ps[..|ps| - 1]);
    }
  }

  /** `Conversation.ToResponse`: the participants' public views in argument order, the
      admin views filtered with a nested loop, the identifying fields and the creation
      time copied, and the last message passed through; `UpdatedAt` is not part of the
      response. */
  method ToResponse(c: Conversation, participants: seq<User>, lastMessage: Option<MessageResponse>)
    returns (r: ConversationResponse)
    ensures |r.participants| == |participants|
    ensures forall i :: 0 <= i < |participants| ==> r.participants[i] == UserResponseOf(participants[i])
    ensures r.admins == AdminsOf(c.admins, participants)
    ensures c.admins == [] ==> r.admins == []
    ensures r.id == c.id && r.kind == c.kind && r.name == c.name && r.image == c.image
    ensures r.lastMessage == lastMessage && r.createdAt == c.createdAt
  {
    var participantResponses: seq<UserResponse> := [];
    for i := 0 to |participants|
      invariant |participantResponses| == i
      invariant forall k :: 0 <= k < i ==> participantResponses[k] == UserResponseOf(participants[k])
    {
      participantResponses := participantResponses + [UserResponseOf(participants[i])];
    }

    var adminResponses: seq<UserResponse> := [];
    if |c.admins| > 0 {
      for k := 0 to |participants|
        invariant adminResponses == AdminsOf(c.admins, participants[..k])
      {
        var p := participants[k];
        ghost var before := adminResponses;
        var j := 0;
        while j < |c.admins|
          invariant 0 <= j <= |c.admins|
          invariant p.id !in c.admins[..j]
          invariant adminResponses == before
        {
          if p.id == c.admins[j] {
            adminResponses := adminResponses + [UserResponseOf(p)];
            break;
          }
          j := j + 1;
        }
        assert c.admins[..|c.admins|] == c.admins;
        assert (p.id in c.admins && adminResponses == before + [UserResponseOf(p)])
            || (p.id !in c.admins && adminResponses == before);
        assert participants[..k + 1][..k] == participants[..k];
      }
      assert participants[..|participants|] == participants;
    } else {
      AdminsOfNone(participants);
    }
    r := ConversationResponse(c.id, c.kind, c.name, c.image, participantResponses,
                              adminResponses, lastMessage, c.createdAt);
  }
}
