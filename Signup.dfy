/** The registration endpoint `POST /api/auth/signup`: look the email up in
    the user store, refuse a taken email, otherwise store the new user with a
    hashed password and answer with the user's email and name only. The salted
    hash is a parameter: each request passes the hash function it runs with. */
module Signup {
  import opened Options

  /** A stored user; `passwordHash` is what the store's `password` field holds. */
  datatype UserRecord = UserRecord(email: string, passwordHash: string, name: string)

  /** The part of a user the response shows. */
  datatype PublicUser = PublicUser(email: string, name: string)

  datatype Body =
    | Created(message: string, user: PublicUser)
    | Failed(error: string)

  datatype Response = Response(status: int, body: Body)

  const UserExists: Response := Response(400, Failed("User already exists"))

  function CreatedResponse(email: string, name: string): Response
  {
    Response(200, Created("User created", PublicUser(email, name)))
  }

  class UserStore {
    /** The users, keyed by their email. */
    var users: map<string, UserRecord>

    ghost predicate Valid()
      reads this
    {
      forall e :: e in users ==> users[e].email == e
    }

    constructor ()
      ensures Valid() && users == map[]
    {
      users := map[];
    }

    /** `User.findOne({ email })`. */
    function FindOne(email: string): (r: Option<UserRecord>)
      reads this
      requires Valid()
      ensures r.Some? <==> email in users
      ensures r.Some? ==> r.value == users[email] && r.value.email == email
    {
      if email in users then Some(users[email]) else None
    }

    /** Handle one signup request. */
    method Register(email: string, password: string, name: string, hash: string -> string)
      returns (response: Response)
      requires Valid()
      modifies this
      ensures Valid()
      ensures old(email in users) ==> response == UserExists && users == old(users)
      ensures old(email !in users) ==>
        users == old(users)[email := UserRecord(email, hash(password), name)]
        && response == CreatedResponse(email, name)
    {
      var existing := FindOne(email);
      if existing.Some? {
        return UserExists;
      }
      var hashed := hash(password);
      var user := UserRecord(email, hashed, name);
      users := users[email := user];
      response := CreatedResponse(user.email, user.name);
    }
  }

  /** Once an email is registered, a second signup with it is refused and
      the first record stays as it was. */
  method RegisterTwice(store: UserStore, email: string,
                       password1: string, name1: string, hash1: string -> string,
                       password2: string, name2: string, hash2: string -> string)
    returns (first: Response, second: Response)
    requires store.Valid() && email !in store.users
    modifies store
    ensures store.Valid()
    ensures first == CreatedResponse(email, name1)
    ensures second == UserExists
    ensures store.users == old(store.users)[email := UserRecord(email, hash1(password1), name1)]
  {
    first := store.Register(email, password1, name1, hash1);
    second := store.Register(email, password2, name2, hash2);
  }
}
