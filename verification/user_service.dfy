/** The user service in its in-memory mode (`services/user.go`, the branches taken when
    no database is configured). The store keeps two indices over the same records: by
    email and by id. In Go both maps hold pointers to one shared `User`, so an update
    through one index is seen through the other; here the records live once, keyed by
    id, and the email index holds the id of its record. New object ids come from a
    counter, the clock is a `now` argument, and password hashing is the outcome of
    `HashPassword`, passed in. */
module UserService {
  import opened Common
  import opened Models

  const ErrEmailTaken := "email đã được sử dụng"
  const ErrUserNotFound := "không tìm thấy người dùng"

  const DemoEmail := "demo@example.com"
  const DemoName := "Người dùng Demo"

  /** The two indices agree: every email leads to a record with that email, every
      record is reachable from its own email, records sit under their own id, and every
      id is below the next one to hand out. */
  ghost predicate StoreInvariant(users: map<string, ObjectId>, idMap: map<ObjectId, User>, nextId: ObjectId) {
    && (forall e :: e in users ==> users[e] in idMap && idMap[users[e]].email == e)
    && (forall id :: id in idMap ==>
          idMap[id].id == id && id < nextId && idMap[id].email in users && users[idMap[id].email] == id)
  }

  /** The users seen through the email index. */
  ghost function UsersByEmail(users: map<string, ObjectId>, idMap: map<ObjectId, User>): set<User>
    requires forall e :: e in users ==> users[e] in idMap
  {
    set e | e in users :: idMap[users[e]]
  }

  /** Both indices always hold the same users, and an email and an id lead to the same
      record exactly when that record carries both. */
  lemma IndicesHoldSameUsers(users: map<string, ObjectId>, idMap: map<ObjectId, User>, nextId: ObjectId)
    requires StoreInvariant(users, idMap, nextId)
    ensures UsersByEmail(users, idMap) == idMap.Values
    ensures forall e, id :: e in users && id in idMap ==> (users[e] == id <==> idMap[id].email == e)
  {
    forall u | u in idMap.Values
      ensures u in UsersByEmail(users, idMap)
    {
      var id :| id in idMap && idMap[id] == u;
      assert idMap[users[u.email]] == u;
    }
  }

  /** Adding a record under a fresh id and a fresh email keeps the indices in step. */
  lemma InvariantAfterCreate(users: map<string, ObjectId>, idMap: map<ObjectId, User>, nextId: ObjectId, u: User)
    requires StoreInvariant(users, idMap, nextId)
    requires u.id == nextId && u.email !in users
    ensures StoreInvariant(users[u.email := u.id], idMap[u.id := u], nextId + 1)
  {
    var users' := users[u.email := u.id];
    var idMap' := idMap[u.id := u];
    forall e | e in users'
      ensures users'[e] in idMap' && idMap'[users'[e]].email == e
    {
      if e != u.email {
        assert users[e] in idMap && users[e] < nextId;
      }
    }
    forall id | id in idMap'
      ensures idMap'[id].id == id && id < nextId + 1 && idMap'[id].email in users' && users'[idMap'[id].email] == id
    {
      if id != u.id {
        assert idMap[id].email in users && idMap[id].email != u.email;
      }
    }
  }

  /** Replacing a record by one with the same id and email keeps the indices in step. */
  lemma InvariantAfterUpdate(users: map<string, ObjectId>, idMap: map<ObjectId, User>, nextId: ObjectId, u: User)
    requires StoreInvariant(users, idMap, nextId)
    requires u.id in idMap && idMap[u.id].email == u.email
    ensures StoreInvariant(users, idMap[u.id := u], nextId)
  {
  }

  class MockUserService {
    /** `MockUserStore.users`: email to record. */
    var users: map<string, ObjectId>
    /** `MockUserStore.idMap`: id to record. */
    var idMap: map<ObjectId, User>
    /** The next object id to hand out. */
    var nextId: ObjectId

    ghost predicate Valid()
      reads this
    {
      StoreInvariant(users, idMap, nextId)
    }

    /** `NewUserService` without a database: a store holding the demo account only,
        offline, with the hash of its password. Go drops a hashing error, leaving the
        password empty. */
    constructor (demoHash: Result<string, string>, now: int)
      ensures Valid()
      ensures users.Keys == {DemoEmail} && idMap.Keys == {users[DemoEmail]}
      ensures var u := idMap[users[DemoEmail]];
              && u.email == DemoEmail && u.name == DemoName && u.avatar == ""
              && u.status == StatusOffline && u.createdAt == now && u.updatedAt == now
              && u.password == (if demoHash.Ok? then demoHash.value else "")
    {
      var demo := User(0, DemoEmail, if demoHash.Ok? then demoHash.value else "", DemoName, "",
                       StatusOffline, now, now);
      users := map[DemoEmail := 0];
      idMap := map[0 := demo];
      nextId := 1;
    }

    /** `GetUserByEmail`: the record under that email, or "not found". Through the id
        index the same record is found. */
    function GetUserByEmail(email: string): (r: Result<User, string>)
      requires Valid()
      reads this
      ensures r.Err? <==> email !in users
      ensures r.Err? ==> r.error == ErrUserNotFound
      ensures r.Ok? ==> r.value.email == email && r.value.id in idMap && idMap[r.value.id] == r.value
    {
      if email in users then Ok(idMap[users[email]]) else Err(ErrUserNotFound)
    }

    /** `GetUserByID`: the record under that id, or "not found". Through the email
        index the same record is found. */
    function GetUserByID(id: ObjectId): (r: Result<User, string>)
      requires Valid()
      reads this
      ensures r.Err? <==> id !in idMap
      ensures r.Err? ==> r.error == ErrUserNotFound
      ensures r.Ok? ==> r.value.id == id && r.value.email in users && users[r.value.email] == id
    {
      if id in idMap then Ok(idMap[id]) else Err(ErrUserNotFound)
    }

    /** `CreateUser`: an email already in use, or a hashing error, leaves the store as
        it was; otherwise a new offline user with the hashed password is stored under
        both indices and can be found by its email and by its id. */
    method CreateUser(email: string, name: string, hashed: Result<string, string>, now: int)
      returns (r: Result<User, string>)
      requires Valid()
      modifies this
      ensures Valid()
      ensures old(email in users) ==> r == Err(ErrEmailTaken)
      ensures old(email !in users) && hashed.Err? ==> r == Err(hashed.error)
      ensures r.Err? ==> users == old(users) && idMap == old(idMap) && nextId == old(nextId)
      ensures old(email !in users) && hashed.Ok? ==>
                && r == Ok(User(old(nextId), email, hashed.value, name, "", StatusOffline, now, now))
                && users == old(users)[email := r.value.id]
                && idMap == old(idMap)[r.value.id := r.value]
                && nextId == old(nextId) + 1
      ensures r.Ok? ==> GetUserByEmail(email) == r && GetUserByID(r.value.id) == r
    {
      if email in users {
        return Err(ErrEmailTaken);
      }
      if hashed.Err? {
        return Err(hashed.error);
      }
      var user := User(nextId, email, hashed.value, name, "", StatusOffline, now, now);
      InvariantAfterCreate(users, idMap, nextId, user);
      users := users[email := user.id];
      idMap := idMap[user.id := user];
      nextId := nextId + 1;
      r := Ok(user);
    }

    /** `UpdateUser`: an unknown id is "not found" and changes nothing; otherwise the
        record gets the new name, avatar and update time, keeps everything else, and is
        seen so through both indices. */
    method UpdateUser(id: ObjectId, name: string, avatar: string, now: int) returns (r: Result<User, string>)
      requires Valid()
      modifies this`idMap
      ensures Valid()
      ensures id !in old(idMap) ==> r == Err(ErrUserNotFound) && idMap == old(idMap)
      ensures id in old(idMap) ==>
                && r == Ok(old(idMap[id]).(name := name, avatar := avatar, updatedAt := now))
                && idMap == old(idMap)[id := r.value]
      ensures r.Ok? ==> GetUserByID(id) == r && GetUserByEmail(r.value.email) == r
    {
      if id !in idMap {
        return Err(ErrUserNotFound);
      }
      var user := idMap[id].(name := name, avatar := avatar, updatedAt := now);
      InvariantAfterUpdate(users, idMap, nextId, user);
      idMap := idMap[id := user];
      r := Ok(user);
    }

    /** `UpdateUserStatus`: an unknown id is "not found" and changes nothing; otherwise
        only the status and the update time of the record change. Any status string is
        accepted. */
    method UpdateUserStatus(id: ObjectId, status: UserStatus, now: int) returns (err: Option<string>)
      requires Valid()
      modifies this`idMap
      ensures Valid()
      ensures err.None? <==> id in old(idMap)
      ensures err.Some? ==> err.value == ErrUserNotFound && idMap == old(idMap)
      ensures err.None? ==> idMap == old(idMap)[id := old(idMap[id]).(status := status, updatedAt := now)]
      ensures err.None? ==> GetUserByID(id).Ok? && GetUserByID(id).value.status == status
    {
      if id !in idMap {
        return Some(ErrUserNotFound);
      }
      var user := idMap[id].(status := status, updatedAt := now);
      InvariantAfterUpdate(users, idMap, nextId, user);
      idMap := idMap[id := user];
      err := None;
    }
  }
}
