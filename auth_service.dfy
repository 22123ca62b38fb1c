/** The authentication service: registration with its uniqueness checks,
    login, and the lookup of the signed-in user. Password hashing and
    checking and token minting are parameters. */
module AuthService {
  import opened Wrappers
  import opened UserModel
  import opened UserRepository
  import UserService

  const ErrEmailRegistered := "邮箱已被注册"
  const ErrUsernameUsed := "用户名已被使用"
  const ErrHashFailed := UserService.ErrHashFailed
  const ErrTokenFailed := "令牌生成失败"
  const ErrPasswordMismatch := "密码错误"
  const ErrUserNotFound := UserService.ErrUserNotFound
  const ErrAccountDisabled := UserService.ErrAccountDisabled

  /** No two users share an email. */
  ghost predicate UniqueEmails(users: map<int, UserRow>) {
    forall a, b :: a in users && b in users && users[a].email == users[b].email ==> a == b
  }

  /** Some stored user has exactly this email. */
  ghost predicate EmailStored(users: map<int, UserRow>, email: string) {
    exists id :: id in users && users[id].email == email
  }

  // ---------------------------------------------------------------------
  // The email check of Register

  /** The email check as written: it looks up the email as the request
      spells it, while the user is stored with the email lower-cased. */
  ghost predicate EmailCheckPassesAsWritten(users: map<int, UserRow>, request: CreateUserRequest) {
    !EmailStored(users, request.email)
  }

  /** The evidently intended check: look up the email that is stored. */
  ghost predicate EmailCheckPasses(users: map<int, UserRow>, request: CreateUserRequest) {
    !EmailStored(users, ToLower(request.email))
  }

  /** The user Register stores for a request, before the store stamps it. */
  function NewUser(request: CreateUserRequest, hashed: string): (u: User)
    ensures u.email == ToLower(request.email) && u.password == hashed && u.isActive == Some(true)
    ensures u.username == request.username && u.firstName == request.firstName
    ensures u.lastName == request.lastName && u.phone == request.phone && u.avatar == ""
  {
    User(0, request.username, ToLower(request.email), hashed, request.firstName, request.lastName,
         request.phone, "", Some(true), 0, 0)
  }

  /** With the intended check, a registration keeps emails unique. */
  lemma RegisterKeepsEmailsUnique(users: map<int, UserRow>, id: int, request: CreateUserRequest, hashed: string, now: Timestamp)
    requires UniqueEmails(users) && id !in users && EmailCheckPasses(users, request)
    ensures UniqueEmails(users[id := RowOf(NewUser(request, hashed).(createdAt := now, updatedAt := now))])
  {
  }

  /** As written, "A@x.com" passes the check while "a@x.com" is stored, and
      the account it creates is a second one with "a@x.com"; the intended
      check refuses it. */
  lemma UppercaseEmailRegistersTwice()
    ensures var row := RowOf(NewUser(CreateUserRequest("u1", "a@x.com", "secret", "A", "B", ""), "h"));
            var users := map[1 := row];
            var request := CreateUserRequest("u2", "A@x.com", "secret", "C", "D", "");
            var after := users[2 := RowOf(NewUser(request, "h"))];
            && UniqueEmails(users)
            && EmailCheckPassesAsWritten(users, request)
            && !UniqueEmails(after)
            && !EmailCheckPasses(users, request)
  {
    SampleEmailsLowered();
    var row := RowOf(NewUser(CreateUserRequest("u1", "a@x.com", "secret", "A", "B", ""), "h"));
    var users := map[1 := row];
    var request := CreateUserRequest("u2", "A@x.com", "secret", "C", "D", "");
    assert EmailStored(users, ToLower(request.email)) by { assert users[1].email == ToLower(request.email); }
    var after := users[2 := RowOf(NewUser(request, "h"))];
    assert after[1].email == after[2].email;
  }

  lemma SampleEmailsLowered()
    ensures ToLower("a@x.com") == "a@x.com" && ToLower("A@x.com") == "a@x.com"
    ensures "A@x.com" != "a@x.com"
  {
    assert ToLower("A@x.com")[0] == 'a';
  }

  // ---------------------------------------------------------------------
  // Login

  /** What Login makes of the user found under the email: an inactive
      account is refused before the password is looked at, then a wrong
      password, then a token that cannot be minted. */
  function LoginOutcome(id: int, row: UserRow, password: string, check: (string, string) -> bool,
                        token: (int, string) -> Result<string>): (r: Result<(UserResponse, string)>)
    ensures row.isActive == Some(false) ==> r == Err(ErrAccountDisabled)
    ensures r.Ok? <==> row.isActive != Some(false) && check(password, row.password) && token(id, row.username).Ok?
    ensures r.Ok? ==> r.value == (ToUserResponse(ScanUser(id, row)), token(id, row.username).value)
  {
    var user := ScanUser(id, row);
    if !IsActive(user) then Err(ErrAccountDisabled)
    else if !check(password, user.password) then Err(ErrPasswordMismatch)
    else match token(user.id, user.username)
      case Err(_) => Err(ErrTokenFailed)
      case Ok(t) => Ok((ToUserResponse(user), t))
  }

  class AuthService {
    const repo: UserStore

    constructor (repo: UserStore)
      ensures this.repo == repo
    {
      this.repo := repo;
    }

    /** Register: refuses a taken email, then a taken username, then a
        password the hash refuses, storing nothing; otherwise stores an
        active user with the email lower-cased and the password hashed. A
        token that cannot be minted fails the call after the user is
        stored. */
    method Register(request: CreateUserRequest, hash: string -> Result<string>,
                    token: (int, string) -> Result<string>, now: Timestamp)
      returns (r: Result<(UserResponse, string)>)
      requires repo.Valid()
      modifies repo
      ensures repo.Valid()
      ensures UniqueEmails(old(repo.users)) ==> UniqueEmails(repo.users)
      ensures EmailStored(old(repo.users), ToLower(request.email)) ==>
                r == Err(ErrEmailRegistered) && repo.Tables() == old(repo.Tables())
      ensures !EmailStored(old(repo.users), ToLower(request.email))
              && (exists id :: id in old(repo.users) && old(repo.users)[id].username == request.username) ==>
                r == Err(ErrUsernameUsed) && repo.Tables() == old(repo.Tables())
      ensures r.Err? && r.message == ErrHashFailed ==>
                hash(request.password).Err? && repo.Tables() == old(repo.Tables())
      ensures r.Ok? || r == Err(ErrTokenFailed) ==> hash(request.password).Ok?
      ensures r.Ok? || r == Err(ErrTokenFailed) ==>
                var id := old(repo.nextUserId);
                var stored := NewUser(request, (if hash(request.password).Ok? then hash(request.password).value else "")).(createdAt := now, updatedAt := now);
                && repo.Tables() == old(repo.Tables()).(users := old(repo.users)[id := RowOf(stored)], nextUserId := id + 1)
                && (r.Ok? <==> token(id, request.username).Ok?)
                && (r.Ok? ==> r.value == (UserResponse(id, request.username, ToLower(request.email),
                                                       request.firstName, request.lastName, ""),
                                          token(id, request.username).value))
      ensures r.Err? ==> r.message in {ErrEmailRegistered, ErrUsernameUsed, ErrHashFailed, ErrTokenFailed}
      ensures !EmailStored(old(repo.users), ToLower(request.email))
              && !(exists id :: id in old(repo.users) && old(repo.users)[id].username == request.username) ==>
                && (hash(request.password).Err? ==> r == Err(ErrHashFailed) && repo.Tables() == old(repo.Tables()))
                && (hash(request.password).Ok? ==> (r.Ok? <==> token(old(repo.nextUserId), request.username).Ok?)
                                                   && (r.Err? ==> r == Err(ErrTokenFailed)))
    {
      var byEmail := repo.GetByEmail(ToLower(request.email));
      if byEmail.Some? {
        return Err(ErrEmailRegistered);
      }
      var byName := repo.GetByUsername(request.username);
      if byName.Some? {
        return Err(ErrUsernameUsed);
      }
      var hashed := hash(request.password);
      if hashed.Err? {
        return Err(ErrHashFailed);
      }
      ghost var before := repo.users;
      var userId, user := repo.Create(NewUser(request, hashed.value), now);
      if UniqueEmails(before) {
        RegisterKeepsEmailsUnique(before, userId, request, hashed.value, now);
      }
      var minted := token(userId, user.username);
      if minted.Err? {
        return Err(ErrTokenFailed);
      }
      return Ok((UserResponse(userId, user.username, user.email, user.firstName, user.lastName, ""), minted.value));
    }

    /** Login: looks the user up by the lower-cased email; no such user is
        refused, otherwise the found user decides as LoginOutcome says. */
    method Login(email: string, password: string, check: (string, string) -> bool,
                 token: (int, string) -> Result<string>)
      returns (r: Result<(UserResponse, string)>)
      ensures !EmailStored(repo.users, ToLower(email)) ==> r == Err(ErrUserNotFound)
      ensures EmailStored(repo.users, ToLower(email)) ==>
                exists id :: id in repo.users && repo.users[id].email == ToLower(email)
                             && r == LoginOutcome(id, repo.users[id], password, check, token)
      ensures UniqueEmails(repo.users) ==>
                forall id :: id in repo.users && repo.users[id].email == ToLower(email) ==>
                  r == LoginOutcome(id, repo.users[id], password, check, token)
    {
      var found := repo.GetByEmail(ToLower(email));
      if found.None? {
        return Err(ErrUserNotFound);
      }
      var user := found.value;
      if !IsActive(user) {
        return Err(ErrAccountDisabled);
      }
      if !check(password, user.password) {
        return Err(ErrPasswordMismatch);
      }
      var minted := token(user.id, user.username);
      if minted.Err? {
        return Err(ErrTokenFailed);
      }
      return Ok((UserResponse(user.id, user.username, user.email, user.firstName, user.lastName, user.avatar), minted.value));
    }

    /** GetUserByID: a missing or inactive user is refused; an active one
        comes back without its password. */
    function GetUserByID(id: int): (r: Result<UserResponse>)
      reads repo
      ensures r.Ok? <==> id in repo.users && repo.users[id].isActive != Some(false)
      ensures id !in repo.users ==> r == Err(ErrUserNotFound)
      ensures id in repo.users && repo.users[id].isActive == Some(false) ==> r == Err(ErrAccountDisabled)
      ensures r.Ok? ==> r.value == ToUserResponse(ScanUser(id, repo.users[id]))
    {
      match repo.GetByID(id)
      case None => Err(ErrUserNotFound)
      case Some(user) =>
        if user.isActive.None? || !user.isActive.value then Err(ErrAccountDisabled)
        else Ok(UserResponse(user.id, user.username, user.email, user.firstName, user.lastName, user.avatar))
    }
  }
}
