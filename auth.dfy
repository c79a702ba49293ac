/**
 * The user registry of `AuthService`: registration with its two conflict
 * rules, login with one message for every failure, the profile lookup and
 * token refresh. Password hashing and token signing are parameters.
 */
module Auth {
  import opened Common
  import opened Seqs

  datatype Role = ADMIN | AUTHOR | USER

  datatype User = User(
    id: int,
    username: string,
    email: string,
    password: string,
    role: Role,
    isVerified: bool,
    avatar: Option<string>,
    createdAt: int)

  /** Ids, e-mail addresses and user names are each unique, and ids are
      below the next id the database will hand out. */
  predicate Registry(users: seq<User>, nextId: int) {
    (forall i :: 0 <= i < |users| ==> users[i].id < nextId) &&
    (forall i, j :: 0 <= i < j < |users| ==>
      users[i].id != users[j].id && users[i].email != users[j].email && users[i].username != users[j].username)
  }

  const EmailTaken := "Email đã được sử dụng"
  const UsernameTaken := "Tên người dùng đã được sử dụng"
  const Registered := "Đăng ký thành công. Vui lòng kiểm tra email để xác nhận."
  const BadCredentials := "Email hoặc mật khẩu không chính xác"
  const NoSuchUser := "Không tìm thấy người dùng"
  const InvalidToken := "Token không hợp lệ"
  const EmailVerified := "Email verified successfully"

  /** The bcrypt cost factor registration hashes with. */
  const SaltRounds := 12

  /** `findFirst({ where: { OR: [{ email }, { username }] } })`: the first
      user, in table order, with that e-mail address or that user name. */
  function FirstClash(users: seq<User>, username: string, email: string): (r: Option<User>)
    ensures r.Some? ==> r.value in users && (r.value.email == email || r.value.username == username)
    ensures r.None? <==> forall i :: 0 <= i < |users| ==> users[i].email != email && users[i].username != username
    ensures r.Some? ==> exists i :: (0 <= i < |users| && users[i] == r.value &&
                                     forall j :: 0 <= j < i ==> users[j].email != email && users[j].username != username)
  {
    if users == [] then None
    else if users[0].email == email || users[0].username == username then Some(users[0])
    else FirstClash(users[1..], username, email)
  }

  /** The conflict `register` reports, if any: the e-mail message when the
      clashing user has the e-mail address, the user-name message otherwise. */
  function RegisterConflict(users: seq<User>, username: string, email: string): (r: Option<Error>)
    ensures r.None? <==> forall i :: 0 <= i < |users| ==> users[i].email != email && users[i].username != username
    ensures r.Some? ==> r.value == Conflict(EmailTaken) || r.value == Conflict(UsernameTaken)
  {
    var clash := FirstClash(users, username, email);
    if clash.None? then None
    else if clash.value.email == email then Some(Conflict(EmailTaken))
    else Some(Conflict(UsernameTaken))
  }

  /** The e-mail message wins only when the first clashing user is the one
      with the address: an address taken by a later user than a clashing
      user name is reported as a user-name conflict. */
  lemma ConflictMessageFollowsFirstClash()
    ensures var a := User(1, "kim", "a@x.vn", "h1", USER, true, None, 0);
            var b := User(2, "ngan", "b@x.vn", "h2", USER, true, None, 0);
            Registry([a, b], 3) &&
            RegisterConflict([a, b], "kim", "b@x.vn") == Some(Conflict(UsernameTaken))
  {
  }

  /** When every clash is on the e-mail address, the e-mail message is reported. */
  lemma EmailClashReported(users: seq<User>, username: string, email: string)
    requires exists i :: 0 <= i < |users| && users[i].email == email
    requires forall i :: 0 <= i < |users| ==> users[i].username != username
    ensures RegisterConflict(users, username, email) == Some(Conflict(EmailTaken))
  {
  }

  datatype RegisterReply = RegisterReply(message: string, userId: int)

  /** What a signed token says about its user. */
  datatype Payload = Payload(sub: int, role: Role, username: string, email: string)

  function PayloadOf(u: User): (p: Payload)
    ensures p.sub == u.id && p.role == u.role && p.username == u.username && p.email == u.email
  {
    Payload(u.id, u.role, u.username, u.email)
  }

  /** The user as the login reply shows it (no password). */
  datatype PublicUser = PublicUser(id: int, email: string, username: string, role: Role, avatar: Option<string>)

  datatype LoginReply = LoginReply(token: string, user: PublicUser)

  /** `findUnique({ where: { email } })`. */
  function FindByEmail(users: seq<User>, email: string): Option<User> {
    Find(users, (u: User) => u.email == email)
  }

  function FindById(users: seq<User>, id: int): Option<User> {
    Find(users, (u: User) => u.id == id)
  }

  /** `login`: `compare` is bcrypt's check of a password against a stored
      hash and `sign` the token signer. */
  function Login(users: seq<User>, email: string, password: string,
                 compare: (string, string) -> bool, sign: Payload -> string): (r: Result<LoginReply>)
    ensures r.Ok? <==> FindByEmail(users, email).Some? && compare(password, FindByEmail(users, email).value.password)
    ensures r.Err? ==> r.error == Unauthorized(BadCredentials)
    ensures r.Ok? ==> var u := FindByEmail(users, email).value;
      r.value.token == sign(PayloadOf(u)) &&
      r.value.user == PublicUser(u.id, u.email, u.username, u.role, u.avatar)
  {
    var found := FindByEmail(users, email);
    if found.None? || !compare(password, found.value.password) then Err(Unauthorized(BadCredentials))
    else Ok(LoginReply(sign(PayloadOf(found.value)), PublicUser(found.value.id, found.value.email, found.value.username, found.value.role, found.value.avatar)))
  }

  /** An unknown address and a wrong password are indistinguishable. */
  lemma LoginFailuresAlike(users: seq<User>, known: string, unknown: string, wrong: string,
                           compare: (string, string) -> bool, sign: Payload -> string)
    requires FindByEmail(users, unknown).None?
    requires FindByEmail(users, known).Some? && !compare(wrong, FindByEmail(users, known).value.password)
    ensures forall password :: Login(users, unknown, password, compare, sign) == Login(users, known, wrong, compare, sign)
  {
  }

  /** Whether the address is verified plays no part in logging in. */
  lemma UnverifiedCanLogin(users: seq<User>, email: string, password: string,
                           compare: (string, string) -> bool, sign: Payload -> string)
    requires FindByEmail(users, email).Some? && !FindByEmail(users, email).value.isVerified
    requires compare(password, FindByEmail(users, email).value.password)
    ensures Login(users, email, password, compare, sign).Ok?
  {
  }

  datatype Profile = Profile(id: int, email: string, username: string, role: Role,
                             avatar: Option<string>, createdAt: int, isVerified: bool)

  function GetProfile(users: seq<User>, userId: int): (r: Result<Profile>)
    ensures r.Err? <==> FindById(users, userId).None?
    ensures r.Err? ==> r.error == NotFound(NoSuchUser)
    ensures r.Ok? ==> var u := FindById(users, userId).value;
      r.value == Profile(u.id, u.email, u.username, u.role, u.avatar, u.createdAt, u.isVerified)
  {
    var found := FindById(users, userId);
    if found.None? then Err(NotFound(NoSuchUser))
    else
      var u := found.value;
      Ok(Profile(u.id, u.email, u.username, u.role, u.avatar, u.createdAt, u.isVerified))
  }

  /** `refreshToken`: a fresh token for a user that still exists. */
  function RefreshToken(users: seq<User>, userId: int, sign: Payload -> string): (r: Result<string>)
    ensures r.Err? <==> FindById(users, userId).None?
    ensures r.Err? ==> r.error == Unauthorized(InvalidToken)
    ensures r.Ok? ==> r.value == sign(PayloadOf(FindById(users, userId).value))
  {
    var found := FindById(users, userId);
    if found.None? then Err(Unauthorized(InvalidToken)) else Ok(sign(PayloadOf(found.value)))
  }

  /** A missing user is NotFound to the profile and Unauthorized to the refresh. */
  lemma MissingUserErrors(users: seq<User>, userId: int, sign: Payload -> string)
    requires forall i :: 0 <= i < |users| ==> users[i].id != userId
    ensures GetProfile(users, userId) == Err(NotFound(NoSuchUser))
    ensures RefreshToken(users, userId, sign) == Err(Unauthorized(InvalidToken))
  {
  }

  /** `verifyEmail`: success, whatever the token. */
  function VerifyEmail(token: string): string {
    EmailVerified
  }

  lemma VerifyEmailIgnoresToken(t1: string, t2: string)
    ensures VerifyEmail(t1) == VerifyEmail(t2) == EmailVerified
  {
  }

  lemma {:induction false} UniqueEmailFindsOwner(users: seq<User>, nextId: int, i: int)
    requires Registry(users, nextId) && 0 <= i < |users|
    ensures FindByEmail(users, users[i].email) == Some(users[i])
  {
    if i > 0 {
      assert users[0].email != users[i].email;
      UniqueEmailFindsOwner(users[1..], nextId, i - 1);
    }
  }

  class AuthService {
    var users: seq<User>
    var nextId: int
    /** The role the database gives a new user. */
    const defaultRole: Role

    predicate Valid()
      reads this
    {
      Registry(users, nextId)
    }

    constructor(initial: seq<User>, next: int, role: Role)
      requires Registry(initial, next)
      ensures Valid() && users == initial && nextId == next && defaultRole == role
    {
      users := initial;
      nextId := next;
      defaultRole := role;
    }

    /** `register`: refused with a Conflict, the table unchanged, whenever the
        address or the name is taken; otherwise exactly one unverified user is
        added, holding `hash(password, 12)` and not the password. */
    method Register(username: string, email: string, password: string, now: int,
                    hash: (string, nat) -> string) returns (r: Result<RegisterReply>)
      requires Valid()
      modifies this
      ensures Valid()
      ensures RegisterConflict(old(users), username, email).Some? ==>
        r == Err(RegisterConflict(old(users), username, email).value) && users == old(users) && nextId == old(nextId)
      ensures RegisterConflict(old(users), username, email).None? ==>
        r == Ok(RegisterReply(Registered, old(nextId))) && nextId == old(nextId) + 1 &&
        users == old(users) + [User(old(nextId), username, email, hash(password, SaltRounds), defaultRole, false, None, now)]
    {
      var conflict := RegisterConflict(users, username, email);
      if conflict.Some? {
        return Err(conflict.value);
      }
      var u := User(nextId, username, email, hash(password, SaltRounds), defaultRole, false, None, now);
      users := users + [u];
      nextId := nextId + 1;
      r := Ok(RegisterReply(Registered, u.id));
    }

    method LoginUser(email: string, password: string, compare: (string, string) -> bool,
                     sign: Payload -> string) returns (r: Result<LoginReply>)
      ensures r == Login(users, email, password, compare, sign)
    {
      r := Login(users, email, password, compare, sign);
    }

    method ViewProfile(userId: int) returns (r: Result<Profile>)
      ensures r == GetProfile(users, userId)
    {
      r := GetProfile(users, userId);
    }

    method Refresh(userId: int, sign: Payload -> string) returns (r: Result<string>)
      ensures r == RefreshToken(users, userId, sign)
    {
      r := RefreshToken(users, userId, sign);
    }
  }

  /** A user who has just registered can log in with the password they chose
      (given that bcrypt accepts a password against its own hash), and the
      token names that user. */
  lemma RegisterThenLogin(users: seq<User>, nextId: int, u: User,
                          compare: (string, string) -> bool, sign: Payload -> string, password: string)
    requires Registry(users + [u], nextId)
    requires compare(password, u.password)
    ensures Login(users + [u], u.email, password, compare, sign) ==
      Ok(LoginReply(sign(Payload(u.id, u.role, u.username, u.email)), PublicUser(u.id, u.email, u.username, u.role, u.avatar)))
  {
    UniqueEmailFindsOwner(users + [u], nextId, |users|);
  }
}
