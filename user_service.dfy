/** The user service of src/services/user.js over a user store: registration,
    login and lookup by id. The identity path is `email`, compared under the
    schema's case-insensitive collation. */
module UserService {
  import opened Common
  import opened Bcrypt
  import opened UserModel

  /** What the service throws. */
  datatype UserError = IdentityInUse | IncorrectCredentials

  /** The path `register` and `login` use as the identity. */
  const IdentityName: string := "email"

  /** The messages of the thrown errors. */
  function Message(e: UserError): (m: string)
    ensures e == IdentityInUse ==> m == "This email is already in use"
    ensures e == IncorrectCredentials ==> m == "Incorrect email or password"
  {
    match e
    case IdentityInUse => "This " + IdentityName + " is already in use"
    case IncorrectCredentials => "Incorrect " + IdentityName + " or password"
  }

  /** `User.findOne({email: identity})`: the first stored user whose email the
      collation equates with `identity`. */
  function FindByIdentity(users: seq<User>, identity: string): (r: Option<nat>)
    ensures r.Some? ==> r.value < |users| && SameEmail(users[r.value].email, identity)
    ensures r.Some? ==> forall j :: 0 <= j < r.value ==> !SameEmail(users[j].email, identity)
    ensures r.None? <==> forall j :: 0 <= j < |users| ==> !SameEmail(users[j].email, identity)
  {
    if users == [] then None
    else if SameEmail(users[0].email, identity) then Some(0)
    else match FindByIdentity(users[1..], identity)
      case None => None
      case Some(k) => Some(k + 1)
  }

  /** `login(identity, password)`: the stored user with that identity whose digest
      accepts the password. An unknown identity and a wrong password fail with the
      same error. */
  function Login(users: seq<User>, identity: string, password: string): (r: Result<User, UserError>)
    ensures r.Failure? ==> r.error == IncorrectCredentials
    ensures r.Success? ==> r.value in users && SameEmail(r.value.email, identity) && Compare(password, r.value.password)
    ensures (forall u :: u in users ==> !SameEmail(u.email, identity)) ==> r == Failure(IncorrectCredentials)
  {
    match FindByIdentity(users, identity)
    case None => Failure(IncorrectCredentials)
    case Some(i) =>
      if Compare(password, users[i].password) then Success(users[i])
      else Failure(IncorrectCredentials)
  }

  /** With unique emails, login succeeds exactly when some stored user has that
      identity and a digest accepting the password. */
  lemma LoginSucceedsIff(users: seq<User>, identity: string, password: string)
    requires EmailsUnique(users)
    ensures Login(users, identity, password).Success? <==>
            exists u :: u in users && SameEmail(u.email, identity) && Compare(password, u.password)
  {
    if u :| u in users && SameEmail(u.email, identity) && Compare(password, u.password) {
      var k :| 0 <= k < |users| && users[k] == u;
      var i := FindByIdentity(users, identity).value;
      assert i == k;
    }
  }

  /** Login does not reveal whether the identity exists: an unknown identity and a
      known identity with a wrong password give the same failure. */
  lemma LoginFailuresAlike(users: seq<User>, unknown: string, known: string, wrong: string)
    requires forall u :: u in users ==> !SameEmail(u.email, unknown)
    requires EmailsUnique(users)
    requires forall u :: u in users && SameEmail(u.email, known) ==> !Compare(wrong, u.password)
    ensures Login(users, unknown, wrong) == Login(users, known, wrong) == Failure(IncorrectCredentials)
  {
  }

  /** `getUserById`: the user with that id, or nothing. */
  function GetUserById(users: seq<User>, id: Id): (r: Option<User>)
    ensures r.Some? ==> r.value in users && r.value.id == id
    ensures r.None? <==> forall u :: u in users ==> u.id != id
  {
    if users == [] then None
    else if users[0].id == id then Some(users[0])
    else GetUserById(users[1..], id)
  }

  /** The user `register` saves: the identity as `email`, the given names, and a
      digest of cost 10 that accepts the password. */
  function Registered(id: Id, identity: string, firstName: string, lastName: string,
                      password: string, salt: Salt): (u: User)
    ensures u.id == id && u.email == identity && u.firstName == firstName && u.lastName == lastName
    ensures u.password.cost == SaltRounds && u.password.salt == salt && Compare(password, u.password)
    ensures u.picture == DefaultPicture && u.pictureId == "" && u.lastPlayed.None? && u.myGames == []
  {
    NewUser(id, firstName, lastName, identity, Hash(password, SaltRounds, salt))
  }

  /** The saved user has all required paths exactly when the names and the identity
      are not empty; the digest always fills `password`. */
  lemma RegisteredRequiredIff(id: Id, identity: string, firstName: string, lastName: string,
                              password: string, salt: Salt)
    ensures RequiredPresent(Registered(id, identity, firstName, lastName, password, salt)) <==>
            firstName != "" && lastName != "" && identity != ""
  {
  }

  /** Appending a user whose identity is new keeps emails unique. */
  lemma AppendNewIdentityUnique(users: seq<User>, u: User)
    requires EmailsUnique(users) && FindByIdentity(users, u.email).None?
    ensures EmailsUnique(users + [u])
  {
    var s := users + [u];
    forall i, j | 0 <= i < j < |s| ensures !SameEmail(s[i].email, s[j].email) {
      if j == |users| { assert !SameEmail(users[i].email, u.email); }
    }
  }

  /** After a registration with a new identity, logging in with that identity
      (in any letter case) and the same password returns the new user. */
  lemma {:induction false} LoginAfterRegister(users: seq<User>, id: Id, identity: string, sameIdentity: string,
                                              firstName: string, lastName: string, password: string, salt: Salt)
    requires FindByIdentity(users, identity).None?
    requires SameEmail(sameIdentity, identity)
    ensures Login(users + [Registered(id, identity, firstName, lastName, password, salt)], sameIdentity, password)
            == Success(Registered(id, identity, firstName, lastName, password, salt))
  {
    var u := Registered(id, identity, firstName, lastName, password, salt);
    var s := users + [u];
    var i := FindByIdentity(s, sameIdentity);
    assert s[|users|] == u;
    assert i.Some?;
    assert forall j :: 0 <= j < |users| ==> s[j] == users[j];
    assert i.value == |users|;
    CompareAcceptsOwnHash(password, SaltRounds, salt);
  }

  /** After a registration with a new identity, logging in with it and any other
      password fails with the common error. */
  lemma {:induction false} LoginAfterRegisterRejectsOthers(users: seq<User>, id: Id, identity: string,
                                                           firstName: string, lastName: string,
                                                           password: string, salt: Salt, wrong: string)
    requires FindByIdentity(users, identity).None?
    requires wrong != password
    ensures Login(users + [Registered(id, identity, firstName, lastName, password, salt)], identity, wrong)
            == Failure(IncorrectCredentials)
  {
    var u := Registered(id, identity, firstName, lastName, password, salt);
    var s := users + [u];
    var i := FindByIdentity(s, identity);
    assert s[|users|] == u;
    assert i.Some?;
    assert forall j :: 0 <= j < |users| ==> s[j] == users[j];
    assert i.value == |users|;
    CompareRejectsOthers(password, wrong, SaltRounds, salt);
  }

  /** The user store. */
  class Accounts {
    /** The documents of the collection, in natural order. */
    var users: seq<User>
    /** The next ObjectId the generator hands out; every stored id is below it. */
    var nextId: Id

    ghost predicate Valid()
      reads this
    {
      EmailsUnique(users) && UserIdsUnique(users) && forall i :: 0 <= i < |users| ==> users[i].id < nextId
    }

    /** An empty collection. */
    constructor ()
      ensures Valid() && users == [] && nextId == 0
    {
      users := [];
      nextId := 0;
    }

    /** `register(identity, firstName, lastName, password)`: "already in use" when a
        user with that identity exists, otherwise one new user with the given names,
        `email = identity` and the digest of the password (never the password). */
    method Register(identity: string, firstName: string, lastName: string, password: string, salt: Salt)
      returns (r: Result<User, UserError>)
      requires Valid()
      modifies this
      ensures Valid()
      ensures FindByIdentity(old(users), identity).Some? ==>
                r == Failure(IdentityInUse) && users == old(users) && nextId == old(nextId)
      ensures FindByIdentity(old(users), identity).None? ==>
                r == Success(Registered(old(nextId), identity, firstName, lastName, password, salt)) &&
                users == old(users) + [r.value] && nextId == old(nextId) + 1
      ensures r.Success? ==> r.value.email == identity && r.value.password == Hash(password, SaltRounds, salt)
      ensures r.Success? ==> Login(users, identity, password) == Success(r.value)
    {
      var existing := FindByIdentity(users, identity);
      if existing.Some? {
        return Failure(IdentityInUse);
      }
      var user := Registered(nextId, identity, firstName, lastName, password, salt);
      AppendNewIdentityUnique(users, user);
      LoginAfterRegister(users, nextId, identity, identity, firstName, lastName, password, salt);
      users := users + [user];
      nextId := nextId + 1;
      return Success(user);
    }
  }
}
