/** Account rules (backend/controllers/authController.js): `signup` validates the
    fields, refuses a username or email already taken and appends the new user;
    `login` validates the fields, looks the user up by username and answers an
    unknown user and a wrong password alike. Password comparison
    (`user.comparePassword`) and token signing (`jwt.sign`) are opaque and passed
    in as `compare` and `sign`; a failing database call is a `fault` parameter
    carrying the error's message. Password hashing and any validators of the User
    model are not part of this model. */
module Auth {
  import opened Common

  /** The user as returned by `signup`: no password. */
  datatype PublicUser = PublicUser(id: UserId, username: string, email: string)

  datatype SignupResponse = SignupResponse(status: int, message: string, user: PublicUser)

  /** The `login` body: `{message, token, user_id}`. */
  datatype LoginResponse = LoginResponse(message: string, token: string, userId: UserId)

  /** No two accounts share an id, a username or an email. */
  ghost predicate UniqueAccounts(users: seq<User>) {
    forall i, j :: 0 <= i < j < |users| ==>
      users[i].id != users[j].id && users[i].username != users[j].username && users[i].email != users[j].email
  }

  /** `User.findOne({$or: [{username}, {email}]})`: the first user holding the username or the email. */
  function FindExisting(users: seq<User>, username: string, email: string): (r: Option<User>)
    ensures r.Some? ==> r.value in users && (r.value.username == username || r.value.email == email)
    ensures r.None? <==> forall u :: u in users ==> u.username != username && u.email != email
  {
    if users == [] then None
    else if users[0].username == username || users[0].email == email then Some(users[0])
    else FindExisting(users[1..], username, email)
  }

  /** `User.findOne({username})`: the first user with that username. */
  function FindByUsername(users: seq<User>, username: string): (r: Option<User>)
    ensures r.Some? ==> r.value in users && r.value.username == username
    ensures r.None? <==> forall u :: u in users ==> u.username != username
  {
    if users == [] then None
    else if users[0].username == username then Some(users[0])
    else FindByUsername(users[1..], username)
  }

  /** The answer of the global error handler to an error without a status, such
      as a rejected database call: 500 and the error's message, or
      'Internal Server Error' when it has none. */
  function DbError(message: string): (e: HttpError)
    ensures e.status == 500 && e.message != ""
    ensures message != "" ==> e.message == message
    ensures message == "" ==> e.message == "Internal Server Error"
  {
    HttpError(500, if message != "" then message else "Internal Server Error")
  }

  /** `login`: 400 for a missing field, 500 when `User.findOne` (`lookupFault`) or
      `comparePassword` (an `Err` of `compare`) fails, the same 401 for an unknown
      username and for a wrong password, otherwise a token signed over `{sub: id, username}`. */
  function Login(users: seq<User>, username: JsString, password: JsString, lookupFault: Option<string>,
                 compare: (User, string) -> Result<bool, string>, sign: Claims -> string): (r: Result<LoginResponse, HttpError>)
    ensures !Truthy(username) || !Truthy(password) ==> r == Err(HttpError(400, "All fields are required"))
    ensures Truthy(username) && Truthy(password) && lookupFault.Some? ==> r == Err(DbError(lookupFault.value))
    ensures Truthy(username) && Truthy(password) && lookupFault.None? && FindByUsername(users, username.value).None? ==>
      r == Err(HttpError(401, "Invalid username or password"))
    ensures Truthy(username) && Truthy(password) && lookupFault.None? && FindByUsername(users, username.value).Some? ==>
      match compare(FindByUsername(users, username.value).value, password.value)
      case Ok(false) => r == Err(HttpError(401, "Invalid username or password"))
      case Err(message) => r == Err(DbError(message))
      case Ok(true) => r.Ok?
    ensures r.Ok? <==>
      && Truthy(username) && Truthy(password) && lookupFault.None?
      && FindByUsername(users, username.value).Some?
      && compare(FindByUsername(users, username.value).value, password.value) == Ok(true)
    ensures r.Ok? ==>
      && var u := FindByUsername(users, username.value).value;
      && r.value == LoginResponse("Logged in successfully", sign(Claims(u.id, u.username)), u.id)
  {
    if !Truthy(username) || !Truthy(password) then Err(HttpError(400, "All fields are required"))
    else if lookupFault.Some? then Err(DbError(lookupFault.value))
    else match FindByUsername(users, username.value)
      case None => Err(HttpError(401, "Invalid username or password"))
      case Some(u) =>
        match compare(u, password.value)
        case Err(message) => Err(DbError(message))
        case Ok(isMatch) =>
          if !isMatch then Err(HttpError(401, "Invalid username or password"))
          else Ok(LoginResponse("Logged in successfully", sign(Claims(u.id, u.username)), u.id))
  }

  /** A user who exists answers a wrong password exactly as a username nobody holds. */
  lemma WrongPasswordLooksLikeUnknownUser(users: seq<User>, username: string, password: string, stranger: string,
                                         compare: (User, string) -> Result<bool, string>, sign: Claims -> string)
    requires username != "" && password != "" && stranger != ""
    requires FindByUsername(users, username).Some? && compare(FindByUsername(users, username).value, password) == Ok(false)
    requires forall u :: u in users ==> u.username != stranger
    ensures Login(users, Some(username), Some(password), None, compare, sign)
         == Login(users, Some(stranger), Some(password), None, compare, sign)
  {
  }

  /** Looking up a username finds the account appended under it when no earlier account has it. */
  lemma {:induction false} FindByUsernameAppended(users: seq<User>, nu: User)
    requires forall u :: u in users ==> u.username != nu.username
    ensures FindByUsername(users + [nu], nu.username) == Some(nu)
  {
    if users != [] {
      assert (users + [nu])[1..] == users[1..] + [nu];
      FindByUsernameAppended(users[1..], nu);
    } else {
      assert users + [nu] == [nu];
    }
  }

  /** An account created by `signup` can log in with its password: the token is
      signed over the new id and username. */
  lemma LoginAfterSignup(users: seq<User>, nu: User, compare: (User, string) -> Result<bool, string>, sign: Claims -> string)
    requires forall u :: u in users ==> u.username != nu.username
    requires nu.username != "" && nu.password != "" && compare(nu, nu.password) == Ok(true)
    ensures Login(users + [nu], Some(nu.username), Some(nu.password), None, compare, sign)
         == Ok(LoginResponse("Logged in successfully", sign(Claims(nu.id, nu.username)), nu.id))
  {
    FindByUsernameAppended(users, nu);
  }

  /** The user collection as `signup` and `login` see it. */
  class UserTable {
    var users: seq<User>
    /** The identifier the next saved user receives (ObjectId generation). */
    var nextId: UserId

    ghost predicate Valid()
      reads this
    {
      && UniqueAccounts(users)
      && forall i :: 0 <= i < |users| ==> users[i].id < nextId
    }

    constructor()
      ensures Valid() && users == []
    {
      users := [];
      nextId := 0;
    }

    /** `signup`: a missing field gives 400, a failing `User.findOne`
        (`lookupFault`) 500, a taken username or email 409, a failing `save`
        (`saveFault`) 500, each leaving the table unchanged; otherwise exactly one
        user is appended and 201 is answered with its id, username and email. */
    method Signup(username: JsString, email: JsString, password: JsString, lookupFault: Option<string>, saveFault: Option<string>)
      returns (r: Result<SignupResponse, HttpError>)
      requires Valid()
      modifies this
      ensures Valid()
      ensures r.Err? ==> users == old(users)
      ensures !Truthy(username) || !Truthy(email) || !Truthy(password) ==>
        r == Err(HttpError(400, "All fields are required"))
      ensures Truthy(username) && Truthy(email) && Truthy(password) && lookupFault.Some? ==>
        r == Err(DbError(lookupFault.value))
      ensures Truthy(username) && Truthy(email) && Truthy(password) && lookupFault.None?
              && FindExisting(old(users), username.value, email.value).Some? ==>
        r == Err(HttpError(409, "Username or email already exists"))
      ensures Truthy(username) && Truthy(email) && Truthy(password) && lookupFault.None?
              && FindExisting(old(users), username.value, email.value).None? && saveFault.Some? ==>
        r == Err(DbError(saveFault.value))
      ensures r.Ok? <==> Truthy(username) && Truthy(email) && Truthy(password) && lookupFault.None? && saveFault.None?
                         && forall u :: u in old(users) ==> u.username != username.value && u.email != email.value
      ensures r.Ok? ==>
        && users == old(users) + [User(old(nextId), username.value, email.value, password.value)]
        && r.value == SignupResponse(201, "User created successfully", PublicUser(old(nextId), username.value, email.value))
    {
      if !Truthy(username) || !Truthy(email) || !Truthy(password) {
        return Err(HttpError(400, "All fields are required"));
      }
      if lookupFault.Some? {
        return Err(DbError(lookupFault.value));
      }
      if FindExisting(users, username.value, email.value).Some? {
        return Err(HttpError(409, "Username or email already exists"));
      }
      if saveFault.Some? {
        return Err(DbError(saveFault.value));
      }
      var created := User(nextId, username.value, email.value, password.value);
      users := users + [created];
      nextId := nextId + 1;
      r := Ok(SignupResponse(201, "User created successfully", PublicUser(created.id, created.username, created.email)));
    }
  }
}
