/** The stored user record of the chat server: a user name, a password and the names of the user's friends. */
module UserModel {
  import opened Options

  datatype User = User(username: string, password: string, friends: seq<string>)

  /** Both fields the schema marks `required` hold a non-empty string (the schema's required check
      refuses the empty string as well as a missing value). */
  predicate WellFormed(u: User)
  {
    u.username != "" && u.password != ""
  }

  /** Building and validating a new record: `None` when validation refuses it, so that nothing is saved. */
  function NewUser(username: string, password: string): (r: Option<User>)
    ensures r.Some? <==> username != "" && password != ""
    ensures r.Some? ==> WellFormed(r.value)
    ensures r.Some? ==> r.value.username == username && r.value.password == password
    ensures r.Some? ==> r.value.friends == []
  {
    if username == "" || password == "" then None else Some(User(username, password, []))
  }
}
