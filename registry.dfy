/** The HTTP handlers of the chat server over its user table: register, login, add-friend and
    my-friends. Each handler is one sequential step; its HTTP answer becomes a `Reply`. */
module Registry {
  import opened Options
  import opened UserModel

  /** The user collection, keyed by user name (the schema declares `username` unique). */
  type Table = map<string, User>

  datatype Reply =
    | UserCreated                        // 201 "User created"
    | UsernameTaken                      // 400 "Username taken"
    | LoginSuccessful(username: string)  // 200 "Login successful"
    | InvalidCredentials                 // 400 "Invalid credentials"
    | FriendAdded(friend: string)        // 200 "Friend added!"
    | UserNotFound                       // 404 "User not found!"
    | CannotAddSelf                      // 400 "You can't add yourself!"
    | AlreadyFriends                     // 400 "Already friends!"
    | FriendList(friends: seq<string>)   // 200, the list itself as the body
    | ServerError                        // 500, an exception caught by the handler

  /** The HTTP status code each reply is sent with. */
  function Status(r: Reply): nat
  {
    match r
    case UserCreated => 201
    case LoginSuccessful(_) => 200
    case FriendAdded(_) => 200
    case FriendList(_) => 200
    case UserNotFound => 404
    case ServerError => 500
    case _ => 400
  }

  /** The `message` text of each reply; a friend list and a server error carry none. */
  function Message(r: Reply): string
  {
    match r
    case UserCreated => "User created"
    case UsernameTaken => "Username taken"
    case LoginSuccessful(_) => "Login successful"
    case InvalidCredentials => "Invalid credentials"
    case FriendAdded(_) => "Friend added!"
    case UserNotFound => "User not found!"
    case CannotAddSelf => "You can't add yourself!"
    case AlreadyFriends => "Already friends!"
    case FriendList(_) => ""
    case ServerError => ""
  }

  /** The outcome of one handler: its reply and the user table afterwards. */
  datatype Step = Step(reply: Reply, users: Table)

  // ---------------------------------------------------------------------------
  // Invariants of the user table

  /** Each record is stored under its own name and passed validation. */
  ghost predicate KeyedByName(t: Table)
  {
    forall name :: name in t ==> t[name].username == name && WellFormed(t[name])
  }

  /** Every listed friend is a registered user who lists this user back. */
  ghost predicate Symmetric(t: Table)
  {
    forall a, b :: a in t && b in t[a].friends ==> b in t && a in t[b].friends
  }

  /** Nobody is their own friend. */
  ghost predicate Irreflexive(t: Table)
  {
    forall a :: a in t ==> a !in t[a].friends
  }

  predicate NoDuplicates(s: seq<string>)
  {
    forall i, j :: 0 <= i < j < |s| ==> s[i] != s[j]
  }

  /** No friend is listed twice. */
  ghost predicate DuplicateFree(t: Table)
  {
    forall a :: a in t ==> NoDuplicates(t[a].friends)
  }

  ghost predicate Consistent(t: Table)
  {
    KeyedByName(t) && Symmetric(t) && Irreflexive(t) && DuplicateFree(t)
  }

  // ---------------------------------------------------------------------------
  // The handlers as functions of the table

  /** POST /register: a taken name is refused; otherwise a new record with no friends is saved,
      unless validation refuses an empty name or password, which surfaces as a server error. */
  function RegisterStep(t: Table, username: string, password: string): (r: Step)
  {
    if username in t then Step(UsernameTaken, t)
    else match NewUser(username, password)
      case None => Step(ServerError, t)
      case Some(u) => Step(UserCreated, t[username := u])
  }

  /** POST /login: an exact match of name and stored password. */
  function LoginReply(t: Table, username: string, password: string): (r: Reply)
  {
    if username !in t || t[username].password != password then InvalidCredentials
    else LoginSuccessful(t[username].username)
  }

  /** POST /add-friend. The caller's record is dereferenced only after the friend's has been found,
      so a missing caller shows up as a server error, and only when the friend exists. */
  function AddFriendStep(t: Table, me: string, friend: string): (r: Step)
  {
    if friend !in t then Step(UserNotFound, t)
    else if me !in t then Step(ServerError, t)
    else
      var m, f := t[me], t[friend];
      if m.username == f.username then Step(CannotAddSelf, t)
      else if f.username in m.friends then Step(AlreadyFriends, t)
      else
        var t' := t[me := m.(friends := m.friends + [f.username])];
        Step(FriendAdded(f.username), t'[friend := f.(friends := f.friends + [m.username])])
  }

  /** GET /my-friends/:username: the stored list; an unknown user is dereferenced as null. */
  function MyFriendsReply(t: Table, username: string): (r: Reply)
  {
    if username in t then FriendList(t[username].friends) else ServerError
  }

  // ---------------------------------------------------------------------------
  // Properties of the handlers

  lemma RegisterTakenUnchanged(t: Table, username: string, password: string)
    requires username in t
    ensures RegisterStep(t, username, password) == Step(UsernameTaken, t)
    ensures Message(UsernameTaken) == "Username taken" && Status(UsernameTaken) == 400
  {
  }

  lemma RegisterFreshAddsOne(t: Table, username: string, password: string)
    requires username !in t && username != "" && password != ""
    ensures var s := RegisterStep(t, username, password);
      && s.reply == UserCreated
      && s.users.Keys == t.Keys + {username}
      && s.users[username] == User(username, password, [])
      && forall name :: name in t ==> s.users[name] == t[name]
  {
  }

  lemma RegisterInvalidUnchanged(t: Table, username: string, password: string)
    requires username !in t && (username == "" || password == "")
    ensures RegisterStep(t, username, password) == Step(ServerError, t)
  {
  }

  lemma RegisterKeepsConsistent(t: Table, username: string, password: string)
    requires Consistent(t)
    ensures Consistent(RegisterStep(t, username, password).users)
  {
    var s := RegisterStep(t, username, password);
    if s.reply == UserCreated {
      var t' := s.users;
      forall a, b | a in t' && b in t'[a].friends
        ensures b in t' && a in t'[b].friends
      {
        assert a != username;
        assert b in t && a in t[b].friends;
      }
    }
  }

  lemma LoginMatchesExactly(t: Table, username: string, password: string)
    requires KeyedByName(t)
    ensures LoginReply(t, username, password) == LoginSuccessful(username)
            <==> username in t && t[username].password == password
    ensures LoginReply(t, username, password) != LoginSuccessful(username)
            ==> LoginReply(t, username, password) == InvalidCredentials
  {
  }

  lemma AddFriendErrorOrder(t: Table, me: string, friend: string)
    requires KeyedByName(t)
    ensures var r := AddFriendStep(t, me, friend).reply;
      && (friend !in t ==> r == UserNotFound)
      && (friend in t && me !in t ==> r == ServerError)
      && (friend in t && me in t && me == friend ==> r == CannotAddSelf)
      && (friend in t && me in t && me != friend && friend in t[me].friends ==> r == AlreadyFriends)
      && (friend in t && me in t && me != friend && friend !in t[me].friends ==> r == FriendAdded(friend))
  {
  }

  lemma AddFriendRejectedUnchanged(t: Table, me: string, friend: string)
    ensures !AddFriendStep(t, me, friend).reply.FriendAdded? ==> AddFriendStep(t, me, friend).users == t
  {
  }

  lemma AddFriendAppendsBoth(t: Table, me: string, friend: string)
    requires KeyedByName(t)
    requires AddFriendStep(t, me, friend).reply.FriendAdded?
    ensures var u := AddFriendStep(t, me, friend).users;
      && me in t && friend in t && me != friend
      && u.Keys == t.Keys
      && u[me] == t[me].(friends := t[me].friends + [friend])
      && u[friend] == t[friend].(friends := t[friend].friends + [me])
      && forall name :: name in t && name != me && name != friend ==> u[name] == t[name]
  {
  }

  lemma {:induction false} AddFriendKeepsConsistent(t: Table, me: string, friend: string)
    requires Consistent(t)
    ensures Consistent(AddFriendStep(t, me, friend).users)
  {
    var s := AddFriendStep(t, me, friend);
    if s.reply.FriendAdded? {
      AddFriendAppendsBoth(t, me, friend);
      var u := s.users;
      forall a, b | a in u && b in u[a].friends
        ensures b in u && a in u[b].friends
      {
        if a == me {
          if b != friend {
            assert b in t[me].friends;
            assert b != me;
          }
        } else if a == friend {
          if b != me {
            assert b in t[friend].friends;
            assert b != friend;
          }
        } else {
          assert b in t[a].friends;
          assert a in t[b].friends;
        }
      }
      forall a | a in u ensures NoDuplicates(u[a].friends) {
        assert NoDuplicates(t[a].friends);
      }
    }
  }

  lemma MyFriendsInOrder(t: Table, username: string)
    ensures username in t ==> MyFriendsReply(t, username) == FriendList(t[username].friends)
    ensures username !in t ==> MyFriendsReply(t, username) == ServerError
  {
  }

  /** After a successful add-friend, my-friends lists the caller's old friends and then the new one,
      and the friend's old friends and then the caller. */
  lemma MyFriendsAfterAdd(t: Table, me: string, friend: string)
    requires KeyedByName(t)
    requires AddFriendStep(t, me, friend).reply.FriendAdded?
    ensures var u := AddFriendStep(t, me, friend).users;
      && MyFriendsReply(u, me) == FriendList(t[me].friends + [friend])
      && MyFriendsReply(u, friend) == FriendList(t[friend].friends + [me])
  {
    AddFriendAppendsBoth(t, me, friend);
  }

  // ---------------------------------------------------------------------------
  // The server's user collection, updated in place by the handlers

  class UserStore {
    var users: Table

    ghost predicate Valid()
      reads this
    {
      Consistent(users)
    }

    constructor ()
      ensures Valid() && users == map[]
    {
      users := map[];
    }

    method Register(username: string, password: string) returns (reply: Reply)
      requires Valid()
      modifies this
      ensures Valid()
      ensures Step(reply, users) == RegisterStep(old(users), username, password)
    {
      if username in users {
        return UsernameTaken;
      }
      var created := NewUser(username, password);
      if created.None? {
        return ServerError;
      }
      RegisterKeepsConsistent(users, username, password);
      users := users[username := created.value];
      reply := UserCreated;
    }

    method Login(username: string, password: string) returns (reply: Reply)
      requires Valid()
      ensures reply == LoginReply(users, username, password)
      ensures reply.LoginSuccessful? <==> username in users && users[username].password == password
      ensures !reply.LoginSuccessful? ==> reply == InvalidCredentials
    {
      if username !in users {
        return InvalidCredentials;
      }
      var user := users[username];
      if user.password != password {
        return InvalidCredentials;
      }
      reply := LoginSuccessful(user.username);
    }

    method AddFriend(myUsername: string, friendUsername: string) returns (reply: Reply)
      requires Valid()
      modifies this
      ensures Valid()
      ensures Step(reply, users) == AddFriendStep(old(users), myUsername, friendUsername)
    {
      if friendUsername !in users {
        return UserNotFound;
      }
      var friend := users[friendUsername];
      if myUsername !in users {
        return ServerError;
      }
      var me := users[myUsername];
      if me.username == friend.username {
        return CannotAddSelf;
      }
      if friend.username in me.friends {
        return AlreadyFriends;
      }
      AddFriendKeepsConsistent(users, myUsername, friendUsername);
      me := me.(friends := me.friends + [friend.username]);
      friend := friend.(friends := friend.friends + [me.username]);
      users := users[myUsername := me];
      users := users[friendUsername := friend];
      reply := FriendAdded(friend.username);
    }

    method MyFriends(username: string) returns (reply: Reply)
      requires Valid()
      ensures reply == MyFriendsReply(users, username)
      ensures reply.FriendList? <==> username in users
      ensures reply.FriendList? ==> reply.friends == users[username].friends
    {
      if username !in users {
        return ServerError;
      }
      reply := FriendList(users[username].friends);
    }
  }
}
