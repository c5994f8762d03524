/** The friends slice of the Redux store: the friend list, the received and sent friend
    requests, three loading flags and the last error. The reducers push, assign fields
    in place and reassign filtered lists. */
module FriendSlice {
  import opened Common

  type Id = string

  /** The user a sent request is addressed to. */
  datatype UserRef = UserRef(id: Id, name: string, avatar: JsValue)

  datatype Friend = Friend(id: Id, name: string, avatar: JsValue, isOnline: JsValue, status: string)

  datatype FriendRequest = FriendRequest(id: Id, recipient: UserRef, status: string)

  // ---------------------------------------------------------------- lists keyed by id

  /** `list.some(x => x.id === id)`. */
  predicate SomeWithId<T>(s: seq<T>, key: T -> Id, id: Id) {
    exists i :: 0 <= i < |s| && key(s[i]) == id
  }

  predicate UniqueIds<T>(s: seq<T>, key: T -> Id) {
    forall i, j :: 0 <= i < j < |s| ==> key(s[i]) != key(s[j])
  }

  /** `list.findIndex(x => x.id === id)`. */
  function IndexOfId<T>(s: seq<T>, key: T -> Id, id: Id): (r: int)
    ensures -1 <= r < |s|
    ensures r == -1 <==> !SomeWithId(s, key, id)
    ensures r >= 0 ==> key(s[r]) == id && forall k :: 0 <= k < r ==> key(s[k]) != id
  {
    if s == [] then -1
    else if key(s[0]) == id then 0
    else
      var r := IndexOfId(s[1..], key, id);
      assert forall k :: 1 <= k < |s| ==> s[k] == s[1..][k - 1];
      if r == -1 then -1 else r + 1
  }

  /** `list.filter(x => x.id !== id)`. */
  function WithoutId<T>(s: seq<T>, key: T -> Id, id: Id): seq<T> {
    if s == [] then [] else (if key(s[0]) == id then [] else [s[0]]) + WithoutId(s[1..], key, id)
  }

  /** The filter drops exactly the entries with that id, never lengthens, and keeps a
      list without such entries as it is. */
  lemma {:induction false} WithoutIdMembers<T>(s: seq<T>, key: T -> Id, id: Id)
    ensures forall x :: x in WithoutId(s, key, id) ==> x in s && key(x) != id
    ensures forall x :: x in s && key(x) != id ==> x in WithoutId(s, key, id)
    ensures |WithoutId(s, key, id)| <= |s|
    ensures !SomeWithId(s, key, id) ==> WithoutId(s, key, id) == s
  {
    if s != [] {
      WithoutIdMembers(s[1..], key, id);
      assert s == [s[0]] + s[1..];
      assert forall x :: x in s <==> x == s[0] || x in s[1..];
      if !SomeWithId(s, key, id) {
        assert !SomeWithId(s[1..], key, id) by {
          forall k | 0 <= k < |s[1..]| ensures key(s[1..][k]) != id {
            assert s[1..][k] == s[k + 1];
          }
        }
      }
    }
  }

  /** The filter keeps the surviving entries in order: it distributes over
      concatenation. */
  lemma {:induction false} WithoutIdAppend<T>(s: seq<T>, t: seq<T>, key: T -> Id, id: Id)
    ensures WithoutId(s + t, key, id) == WithoutId(s, key, id) + WithoutId(t, key, id)
  {
    if s == [] {
      assert s + t == t;
    } else {
      var h: seq<T> := if key(s[0]) == id then [] else [s[0]];
      WithoutIdAppend(s[1..], t, key, id);
      assert (s + t)[1..] == s[1..] + t;
      assert (s + t)[0] == s[0];
      calc {
        WithoutId(s + t, key, id);
        h + WithoutId(s[1..] + t, key, id);
        h + (WithoutId(s[1..], key, id) + WithoutId(t, key, id));
        (h + WithoutId(s[1..], key, id)) + WithoutId(t, key, id);
        WithoutId(s, key, id) + WithoutId(t, key, id);
      }
    }
  }

  /** Filtering a list whose ids are distinct leaves them distinct. */
  lemma {:induction false} WithoutIdUnique<T>(s: seq<T>, key: T -> Id, id: Id)
    requires UniqueIds(s, key)
    ensures UniqueIds(WithoutId(s, key, id), key)
  {
    if s != [] {
      var tail := s[1..];
      assert UniqueIds(tail, key) by {
        forall i, j | 0 <= i < j < |tail| ensures key(tail[i]) != key(tail[j]) {
          assert tail[i] == s[i + 1] && tail[j] == s[j + 1];
        }
      }
      WithoutIdUnique(tail, key, id);
      WithoutIdMembers(tail, key, id);
      var r := WithoutId(tail, key, id);
      var h: seq<T> := if key(s[0]) == id then [] else [s[0]];
      forall i, j | 0 <= i < j < |h + r| ensures key((h + r)[i]) != key((h + r)[j]) {
        if h != [] && i == 0 {
          assert (h + r)[j] == r[j - 1];
          assert r[j - 1] in r;
          assert r[j - 1] in tail;
          var k :| 0 <= k < |tail| && tail[k] == r[j - 1];
          assert tail[k] == s[k + 1];
        } else {
          assert (h + r)[i] == r[i - |h|] && (h + r)[j] == r[j - |h|];
        }
      }
    }
  }

  /** `if (!list.some(x => x.id === item.id)) list.push(item)`. */
  function PushIfNewId<T>(s: seq<T>, key: T -> Id, item: T): (r: seq<T>)
    ensures SomeWithId(s, key, key(item)) ==> r == s
    ensures !SomeWithId(s, key, key(item)) ==> r == s + [item]
    ensures UniqueIds(s, key) ==> UniqueIds(r, key)
    ensures SomeWithId(r, key, key(item))
  {
    if SomeWithId(s, key, key(item)) then s
    else
      assert (s + [item])[|s|] == item;
      s + [item]
  }

  function FriendId(f: Friend): Id { f.id }
  function RequestId(r: FriendRequest): Id { r.id }

  /** The friend `updateFriendRequestStatus` builds from an accepted request. */
  function FriendFromRequest(request: FriendRequest): (f: Friend)
    ensures f.id == request.recipient.id && f.name == request.recipient.name
    ensures f.avatar == request.recipient.avatar
    ensures f.isOnline == Bool(false) && f.status == "active"
  {
    Friend(request.recipient.id, request.recipient.name, request.recipient.avatar, Bool(false), "active")
  }

  // ---------------------------------------------------------------- the slice

  class FriendState {
    var friends: seq<Friend>
    var received: seq<FriendRequest>
    var sent: seq<FriendRequest>
    var loadingFriends: bool
    var loadingRequests: bool
    var loadingOperations: bool
    var error: JsValue

    /** `initialState`. */
    constructor ()
      ensures friends == [] && received == [] && sent == []
      ensures !loadingFriends && !loadingRequests && !loadingOperations && error == Null
    {
      friends := [];
      received := [];
      sent := [];
      loadingFriends := false;
      loadingRequests := false;
      loadingOperations := false;
      error := Null;
    }

    method ClearFriendError()
      modifies this`error
      ensures error == Null
    {
      error := Null;
    }

    /** `addIncomingFriendRequest`: a request whose id is already received is ignored. */
    method AddIncomingFriendRequest(request: FriendRequest)
      modifies this`received
      ensures received == PushIfNewId(old(received), RequestId, request)
      ensures SomeWithId(old(received), RequestId, request.id) ==> received == old(received)
      ensures !SomeWithId(old(received), RequestId, request.id) ==> received == old(received) + [request]
      ensures UniqueIds(old(received), RequestId) ==> UniqueIds(received, RequestId)
    {
      if !SomeWithId(received, RequestId, request.id) {
        received := received + [request];
      }
    }

    /** `updateFriendRequestStatus`: the first sent request with the id takes the status;
        on 'accepted' its recipient joins the friends, offline. An unknown id changes
        nothing. */
    method UpdateFriendRequestStatus(requestId: Id, status: string)
      modifies this`sent, this`friends
      ensures !SomeWithId(old(sent), RequestId, requestId) ==> sent == old(sent) && friends == old(friends)
      ensures SomeWithId(old(sent), RequestId, requestId) ==>
                var k := IndexOfId(old(sent), RequestId, requestId);
                && sent == old(sent)[k := old(sent)[k].(status := status)]
                && friends == old(friends) + (if status == "accepted" then [FriendFromRequest(old(sent)[k])] else [])
    {
      var sentIndex := IndexOfId(sent, RequestId, requestId);
      if sentIndex != -1 {
        sent := sent[sentIndex := sent[sentIndex].(status := status)];
        if status == "accepted" {
          friends := friends + [FriendFromRequest(sent[sentIndex])];
        }
      }
    }

    /** `addNewFriend`: a friend whose id is already listed is ignored. */
    method AddNewFriend(friend: Friend)
      modifies this`friends
      ensures friends == PushIfNewId(old(friends), FriendId, friend)
      ensures UniqueIds(old(friends), FriendId) ==> UniqueIds(friends, FriendId)
    {
      if !SomeWithId(friends, FriendId, friend.id) {
        friends := friends + [friend];
      }
    }

    /** `updateFriendOnlineStatus`: only `isOnline` of the first friend with the id
        changes; an unknown user is ignored. */
    method UpdateFriendOnlineStatus(userId: Id, isOnline: JsValue)
      modifies this`friends
      ensures |friends| == |old(friends)|
      ensures !SomeWithId(old(friends), FriendId, userId) ==> friends == old(friends)
      ensures SomeWithId(old(friends), FriendId, userId) ==>
                var k := IndexOfId(old(friends), FriendId, userId);
                friends == old(friends)[k := old(friends)[k].(isOnline := isOnline)]
    {
      var friendIndex := IndexOfId(friends, FriendId, userId);
      if friendIndex != -1 {
        friends := friends[friendIndex := friends[friendIndex].(isOnline := isOnline)];
      }
    }

    // ---------------------------------------------------------- thunk cases

    method GetFriendsPending()
      modifies this`loadingFriends, this`error
      ensures loadingFriends && error == Null
    {
      loadingFriends := true;
      error := Null;
    }

    method GetFriendsFulfilled(fetched: seq<Friend>)
      modifies this`loadingFriends, this`friends
      ensures !loadingFriends && friends == fetched
    {
      loadingFriends := false;
      friends := fetched;
    }

    method GetFriendsRejected(payload: JsValue)
      modifies this`loadingFriends, this`error
      ensures !loadingFriends && error == payload
    {
      loadingFriends := false;
      error := payload;
    }

    method GetFriendRequestsPending()
      modifies this`loadingRequests, this`error
      ensures loadingRequests && error == Null
    {
      loadingRequests := true;
      error := Null;
    }

    /** The payload replaces both request lists. */
    method GetFriendRequestsFulfilled(fetchedReceived: seq<FriendRequest>, fetchedSent: seq<FriendRequest>)
      modifies this`loadingRequests, this`received, this`sent
      ensures !loadingRequests && received == fetchedReceived && sent == fetchedSent
    {
      loadingRequests := false;
      received := fetchedReceived;
      sent := fetchedSent;
    }

    method GetFriendRequestsRejected(payload: JsValue)
      modifies this`loadingRequests, this`error
      ensures !loadingRequests && error == payload
    {
      loadingRequests := false;
      error := payload;
    }

    /** The pending case shared by send, accept, reject and remove. */
    method OperationPending()
      modifies this`loadingOperations, this`error
      ensures loadingOperations && error == Null
    {
      loadingOperations := true;
      error := Null;
    }

    /** The rejected case shared by send, accept, reject and remove. */
    method OperationRejected(payload: JsValue)
      modifies this`loadingOperations, this`error
      ensures !loadingOperations && error == payload
    {
      loadingOperations := false;
      error := payload;
    }

    /** `sendFriendRequest.fulfilled`: the new request is pushed without an id check. */
    method SendFriendRequestFulfilled(request: FriendRequest)
      modifies this`loadingOperations, this`sent
      ensures !loadingOperations && sent == old(sent) + [request]
    {
      loadingOperations := false;
      sent := sent + [request];
    }

    /** `acceptFriendRequest.fulfilled`: the request leaves `received` and the friend is
        pushed without an id check. */
    method AcceptFriendRequestFulfilled(requestId: Id, friend: Friend)
      modifies this`loadingOperations, this`received, this`friends
      ensures !loadingOperations
      ensures received == WithoutId(old(received), RequestId, requestId)
      ensures !SomeWithId(received, RequestId, requestId)
      ensures UniqueIds(old(received), RequestId) ==> UniqueIds(received, RequestId)
      ensures friends == old(friends) + [friend]
    {
      loadingOperations := false;
      WithoutIdMembers(received, RequestId, requestId);
      if UniqueIds(received, RequestId) {
        WithoutIdUnique(received, RequestId, requestId);
      }
      received := WithoutId(received, RequestId, requestId);
      friends := friends + [friend];
    }

    /** `rejectFriendRequest.fulfilled`: only the request leaves `received`. */
    method RejectFriendRequestFulfilled(requestId: Id)
      modifies this`loadingOperations, this`received
      ensures !loadingOperations
      ensures received == WithoutId(old(received), RequestId, requestId)
      ensures !SomeWithId(received, RequestId, requestId)
      ensures UniqueIds(old(received), RequestId) ==> UniqueIds(received, RequestId)
    {
      loadingOperations := false;
      WithoutIdMembers(received, RequestId, requestId);
      if UniqueIds(received, RequestId) {
        WithoutIdUnique(received, RequestId, requestId);
      }
      received := WithoutId(received, RequestId, requestId);
    }

    /** `removeFriend.fulfilled`: every friend with the id goes, the rest keep their
        order. */
    method RemoveFriendFulfilled(friendId: Id)
      modifies this`loadingOperations, this`friends
      ensures !loadingOperations
      ensures friends == WithoutId(old(friends), FriendId, friendId)
      ensures forall f :: f in friends <==> f in old(friends) && f.id != friendId
      ensures UniqueIds(old(friends), FriendId) ==> UniqueIds(friends, FriendId)
    {
      loadingOperations := false;
      WithoutIdMembers(friends, FriendId, friendId);
      if UniqueIds(friends, FriendId) {
        WithoutIdUnique(friends, FriendId, friendId);
      }
      friends := WithoutId(friends, FriendId, friendId);
    }
  }
}
