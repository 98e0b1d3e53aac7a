/** The users catalog of the Express server in app.js: a module-level array of
    `{ id, name, age }` records behind five routes under `/users`. Unlike the goods
    server it validates nothing on create and always acknowledges a delete. */
module Users {

  import opened Wrappers
  import opened Http
  import Lists

  /** A stored user. POST copies `name` as sent, so it may be `undefined` (None), and
      stores `parseInt(age)`, which is NaN (None) when no age was sent. */
  datatype User = User(id: int, name: Option<string>, age: Option<int>)

  function UserId(u: User): int { u.id }

  /** The fields of a POST or PATCH body; `None` is a field the client did not send. */
  datatype UserBody = UserBody(name: Option<string>, age: Option<int>)

  const NOT_FOUND_TEXT: string := "Пользователь не найден"
  const PATCH_NOT_FOUND_TEXT: string := "Не найден"
  const DELETED_TEXT: string := "Удалено"

  /** A user after a PATCH body was applied to it: each field the body carries
      overwrites the user's, the others stay. */
  function Patched(u: User, b: UserBody): (r: User)
    ensures r.id == u.id
    ensures b == UserBody(None, None) ==> r == u
  {
    User(u.id,
         if b.name.Some? then b.name else u.name,
         if b.age.Some? then b.age else u.age)
  }

  class Store {
    var users: seq<User>

    /** The three users the server starts with. */
    constructor ()
      ensures users == [User(1, Some("Кирилл Перекальский"), Some(19)),
                        User(2, Some("Иван Иванов"), Some(20)),
                        User(3, Some("Мария Петрова"), Some(18))]
    {
      users := [User(1, Some("Кирилл Перекальский"), Some(19)),
                User(2, Some("Иван Иванов"), Some(20)),
                User(3, Some("Мария Петрова"), Some(18))];
    }

    /** GET /users */
    method List() returns (r: Response<seq<User>>)
      ensures r.status == OK && r.body == Value(users)
    {
      r := Response(OK, Value(users));
    }

    /** GET /users/:id */
    method Get(id: int) returns (r: Response<User>)
      ensures r.status == NOT_FOUND <==> !Lists.HasKey(users, UserId, id)
      ensures r.status == NOT_FOUND ==> r.body == Error(NOT_FOUND_TEXT)
      ensures r.status != NOT_FOUND ==>
        r == Response(OK, Value(users[Lists.FindIndex(users, UserId, id)]))
      ensures r.status == OK ==>
        exists i :: 0 <= i < |users| && users[i] == r.body.value && users[i].id == id &&
          forall j :: 0 <= j < i ==> users[j].id != id
    {
      var i := Lists.FindIndex(users, UserId, id);
      if i != -1 {
        r := Response(OK, Value(users[i]));
      } else {
        r := Response(NOT_FOUND, Error(NOT_FOUND_TEXT));
      }
    }

    /** POST /users, with `now` the value `Date.now()` gives the new user as its id.
        Every body is accepted. */
    method Create(body: UserBody, now: int) returns (r: Response<User>)
      modifies this
      ensures users == old(users) + [User(now, body.name, body.age)]
      ensures r == Response(CREATED, Value(User(now, body.name, body.age)))
    {
      var u := User(now, body.name, body.age);
      users := users + [u];
      r := Response(CREATED, Value(u));
    }

    /** PATCH /users/:id: the user at `findIndex` of the id is updated in place. */
    method Patch(id: int, body: UserBody) returns (r: Response<User>)
      modifies this
      ensures !Lists.HasKey(old(users), UserId, id) ==>
        users == old(users) && r == Response(NOT_FOUND, Error(PATCH_NOT_FOUND_TEXT))
      ensures Lists.HasKey(old(users), UserId, id) ==>
        var i := Lists.FindIndex(old(users), UserId, id);
        users == old(users)[i := Patched(old(users)[i], body)] && r == Response(OK, Value(users[i]))
      ensures |users| == |old(users)|
      ensures forall j :: 0 <= j < |users| ==> users[j].id == old(users)[j].id
      ensures forall j :: 0 <= j < |users| && users[j].id != id ==> users[j] == old(users)[j]
      ensures body == UserBody(None, None) ==> users == old(users)
    {
      var index := Lists.FindIndex(users, UserId, id);
      if index != -1 {
        if body.name.Some? {
          users := users[index := users[index].(name := body.name)];
        }
        if body.age.Some? {
          users := users[index := users[index].(age := body.age)];
        }
        r := Response(OK, Value(users[index]));
      } else {
        r := Response(NOT_FOUND, Error(PATCH_NOT_FOUND_TEXT));
      }
    }

    /** DELETE /users/:id: every user with the id is filtered out, and the reply is a
        success message whether or not one was there. */
    method Delete(id: int) returns (r: Response<User>)
      modifies this
      ensures users == Lists.FilterOut(old(users), UserId, id)
      ensures r == Response(OK, Message(DELETED_TEXT))
      ensures !Lists.HasKey(users, UserId, id)
    {
      users := Lists.FilterOut(users, UserId, id);
      r := Response(OK, Message(DELETED_TEXT));
    }
  }

  /** Deleting the same id twice leaves the store as deleting it once does. */
  method DeleteTwice(store: Store, id: int)
    modifies store
    ensures store.users == Lists.FilterOut(old(store.users), UserId, id)
  {
    var first := store.Delete(id);
    var second := store.Delete(id);
    assert first == second;
    Lists.FilterOutIdempotent(old(store.users), UserId, id);
  }
}
