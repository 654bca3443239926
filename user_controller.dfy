/**
 * `registerUser` of server/src/controllers/userController.ts over a user collection. Password
 * hashing is foreign and is a parameter; so is what `User.create` yields.
 */
module Users {
  import opened Common

  /** The request body: every field may be missing. */
  datatype RegisterBody = RegisterBody(firstName: Option<string>, lastName: Option<string>, email: Option<string>, password: Option<string>)

  /** A stored user; the last name is optional in the schema. */
  datatype UserRecord = UserRecord(firstName: string, lastName: Option<string>, email: string, password: string)

  /** What `User.create` does: resolve with the user, resolve with nothing, or reject with an error. */
  datatype CreateOutcome = Created | CreatedNothing | CreateRejected(message: string)

  /** The response: a JSON reply with its status, or an error forwarded to `next` with the status set before it, if any. */
  datatype Reply = Replied(status: int, message: string) | Forwarded(statusSet: Option<int>, error: string)

  datatype Registration = Registration(users: seq<UserRecord>, reply: Reply)

  const MissingFields := "Please fill all the fields"
  const DuplicateEmail := "User with same email already exists"
  const Registered := "User registered successfully"
  const InvalidUserData := "Invalid user data"

  /** `User.findOne({ email })` finds a user. */
  predicate EmailTaken(users: seq<UserRecord>, email: string) {
    exists i :: 0 <= i < |users| && users[i].email == email
  }

  /** The schema's unique index on email. */
  predicate UniqueEmails(users: seq<UserRecord>) {
    forall i, j :: 0 <= i < j < |users| ==> users[i].email != users[j].email
  }

  /** The required fields (first name, email, password) are all truthy; the last name is not required. */
  predicate HasRequiredFields(body: RegisterBody) {
    Truthy(body.firstName) && Truthy(body.email) && Truthy(body.password)
  }

  /** `registerUser`: the collection afterwards and the response. */
  function Register(users: seq<UserRecord>, body: RegisterBody, hash: string -> string, create: CreateOutcome): (r: Registration)
    ensures r.users == users || (r.reply == Replied(201, Registered) && |r.users| == |users| + 1 && r.users[..|users|] == users)
  {
    if !HasRequiredFields(body) then Registration(users, Forwarded(Some(400), MissingFields))
    else if EmailTaken(users, body.email.value) then Registration(users, Forwarded(Some(400), DuplicateEmail))
    else match create
      case Created =>
        var user := UserRecord(body.firstName.value, body.lastName, body.email.value, hash(body.password.value));
        Registration(users + [user], Replied(201, Registered))
      case CreatedNothing => Registration(users, Forwarded(Some(400), InvalidUserData))
      case CreateRejected(message) => Registration(users, Forwarded(None, message))
  }

  /** A missing first name, email or password is a 400 "Please fill all the fields"; nothing is stored. */
  lemma MissingFieldRejected(users: seq<UserRecord>, body: RegisterBody, hash: string -> string, create: CreateOutcome)
    requires !HasRequiredFields(body)
    ensures Register(users, body, hash, create) == Registration(users, Forwarded(Some(400), MissingFields))
  {
  }

  /** The last name plays no part in the checks: dropping it changes only the stored last name. */
  lemma LastNameOptional(users: seq<UserRecord>, body: RegisterBody, hash: string -> string, create: CreateOutcome)
    ensures Register(users, body.(lastName := None), hash, create).reply == Register(users, body, hash, create).reply
  {
  }

  /** An email already stored is a 400 "User with same email already exists"; nothing is stored. */
  lemma DuplicateRejected(users: seq<UserRecord>, body: RegisterBody, hash: string -> string, create: CreateOutcome)
    requires HasRequiredFields(body) && EmailTaken(users, body.email.value)
    ensures Register(users, body, hash, create) == Registration(users, Forwarded(Some(400), DuplicateEmail))
  {
  }

  /**
   * A complete, new registration stores exactly one user with the given names and email and the
   * HASHED password, and replies 201 "User registered successfully".
   */
  lemma RegistrationStoresHashed(users: seq<UserRecord>, body: RegisterBody, hash: string -> string)
    requires HasRequiredFields(body) && !EmailTaken(users, body.email.value)
    ensures var r := Register(users, body, hash, Created);
      && r.reply == Replied(201, Registered)
      && r.users == users + [UserRecord(body.firstName.value, body.lastName, body.email.value, hash(body.password.value))]
  {
  }

  /** When `User.create` yields nothing the reply is 400 "Invalid user data" and nothing is stored. */
  lemma NothingCreatedRejected(users: seq<UserRecord>, body: RegisterBody, hash: string -> string)
    requires HasRequiredFields(body) && !EmailTaken(users, body.email.value)
    ensures Register(users, body, hash, CreatedNothing) == Registration(users, Forwarded(Some(400), InvalidUserData))
  {
  }

  /** Registration keeps emails unique. */
  lemma RegistrationKeepsEmailsUnique(users: seq<UserRecord>, body: RegisterBody, hash: string -> string, create: CreateOutcome)
    requires UniqueEmails(users)
    ensures UniqueEmails(Register(users, body, hash, create).users)
  {
    var r := Register(users, body, hash, create);
    if r.users != users {
      var added := r.users[|users|];
      assert !EmailTaken(users, added.email);
      forall i, j | 0 <= i < j < |r.users| ensures r.users[i].email != r.users[j].email {
        if j == |users| {
          assert r.users[i] == users[i];
        }
      }
    }
  }

  /** The user collection the controller inserts into. */
  class UserStore {
    var users: seq<UserRecord>

    constructor (users: seq<UserRecord>)
      ensures this.users == users
    {
      this.users := users;
    }

    /** Runs the controller against this collection: checks, lookup, insert, response. */
    method RegisterUser(body: RegisterBody, hash: string -> string, create: CreateOutcome) returns (reply: Reply)
      modifies this
      ensures Registration(users, reply) == Register(old(users), body, hash, create)
    {
      if !HasRequiredFields(body) {
        return Forwarded(Some(400), MissingFields);
      }
      if EmailTaken(users, body.email.value) {
        return Forwarded(Some(400), DuplicateEmail);
      }
      var hashed := hash(body.password.value);
      match create {
        case Created =>
          users := users + [UserRecord(body.firstName.value, body.lastName, body.email.value, hashed)];
          reply := Replied(201, Registered);
        case CreatedNothing =>
          reply := Forwarded(Some(400), InvalidUserData);
        case CreateRejected(message) =>
          reply := Forwarded(None, message);
      }
    }
  }
}
