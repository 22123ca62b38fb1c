/** The user service: profile reads and writes with their existence,
    activity and uniqueness rules, the password change, and preferences with
    their defaults. Password hashing and checking are parameters. */
module UserService {
  import opened Wrappers
  import opened UserModel
  import opened UserRepository

  const ErrUserNotFound := "用户不存在"
  const ErrAccountDisabled := "账户已禁用"
  const ErrEmailInUse := "邮箱已被其他账户使用"
  const ErrUsernameInUse := "用户名已被其他账户使用"
  const ErrWrongPassword := "当前密码不正确"
  const ErrHashFailed := "密码处理失败"

  /** Some user other than `id` has this email. */
  ghost predicate EmailTakenByOther(users: map<int, UserRow>, id: int, email: string) {
    exists k :: k in users && k != id && users[k].email == email
  }

  ghost predicate UsernameTakenByOther(users: map<int, UserRow>, id: int, username: string) {
    exists k :: k in users && k != id && users[k].username == username
  }

  /** The loaded user with the six profile fields of `data` and a new
      updated_at. */
  function WithProfile(user: User, data: User, now: Timestamp): (u: User)
    ensures u.username == data.username && u.email == data.email
    ensures u.firstName == data.firstName && u.lastName == data.lastName
    ensures u.phone == data.phone && u.avatar == data.avatar && u.updatedAt == now
    ensures u.id == user.id && u.password == user.password && u.isActive == user.isActive
    ensures u.createdAt == user.createdAt
  {
    user.(username := data.username, email := data.email, firstName := data.firstName,
          lastName := data.lastName, phone := data.phone, avatar := data.avatar, updatedAt := now)
  }

  /** A profile update leaves the password and the activity of the stored
      user as they read before. */
  lemma ProfileUpdateKeepsSecrets(id: int, row: UserRow, data: User, now: Timestamp)
    ensures var u := WithProfile(ScanUser(id, row), data, now);
            var stored := RowOf(u).(password := row.password, createdAt := row.createdAt);
            && ScanUser(id, stored).password == ScanUser(id, row).password
            && ScanUser(id, stored).isActive == ScanUser(id, row).isActive
            && ScanUser(id, stored).createdAt == ScanUser(id, row).createdAt
            && ScanUser(id, stored) == u
  {
  }

  class UserService {
    const repo: UserStore

    constructor (repo: UserStore)
      ensures this.repo == repo
    {
      this.repo := repo;
    }

    /** GetUserByID: a missing user and an inactive one are refused; an
        active one is returned without its password. */
    function GetUserByID(id: int): (r: Result<UserResponse>)
      reads repo
      ensures id !in repo.users ==> r == Err(ErrUserNotFound)
      ensures id in repo.users && repo.users[id].isActive == Some(false) ==> r == Err(ErrAccountDisabled)
      ensures id in repo.users && repo.users[id].isActive != Some(false) ==>
                r == Ok(ToUserResponse(ScanUser(id, repo.users[id])))
    {
      var user := repo.GetByID(id);
      if user.None? then Err(ErrUserNotFound)
      else if !IsActive(user.value) then Err(ErrAccountDisabled)
      else Ok(ToUserResponse(user.value))
    }

    /** UpdateUserProfile: refuses a missing user, then an email, then a
        username that another user already has (an unchanged one is not
        looked up); otherwise writes the six profile fields. */
    method UpdateUserProfile(id: int, data: User, now: Timestamp) returns (r: Result<()>)
      requires repo.Valid()
      modifies repo
      ensures repo.Valid()
      ensures id !in old(repo.users) ==> r == Err(ErrUserNotFound) && repo.Tables() == old(repo.Tables())
      ensures id in old(repo.users) ==>
                var row := old(repo.users)[id];
                var emailClash := data.email != row.email && EmailTakenByOther(old(repo.users), id, data.email);
                var nameClash := data.username != row.username && UsernameTakenByOther(old(repo.users), id, data.username);
                if emailClash then r == Err(ErrEmailInUse) && repo.Tables() == old(repo.Tables())
                else if nameClash then r == Err(ErrUsernameInUse) && repo.Tables() == old(repo.Tables())
                else && r == Ok(())
                     && repo.Tables() == old(repo.Tables()).(users := old(repo.users)[id :=
                          RowOf(WithProfile(ScanUser(id, row), data, now)).(password := row.password, createdAt := row.createdAt)])
                     && ScanUser(id, repo.users[id]) == WithProfile(ScanUser(id, row), data, now)
    {
      var loaded := repo.GetByID(id);
      if loaded.None? {
        return Err(ErrUserNotFound);
      }
      var user := loaded.value;
      if data.email != user.email {
        var existing := repo.GetByEmail(data.email);
        if existing.Some? && existing.value.id != id {
          return Err(ErrEmailInUse);
        }
        assert !EmailTakenByOther(repo.users, id, data.email);
      }
      if data.username != user.username {
        var existing := repo.GetByUsername(data.username);
        if existing.Some? && existing.value.id != id {
          return Err(ErrUsernameInUse);
        }
        assert !UsernameTakenByOther(repo.users, id, data.username);
      }
      user := WithProfile(user, data, now);
      var _ := repo.Update(user, now);
      ProfileUpdateKeepsSecrets(id, old(repo.users)[id], data, now);
      return Ok(());
    }

    /** UpdatePassword: a missing user and a wrong current password are
        refused, and so is a new password the hash refuses; otherwise only
        the hash of the new password and updated_at are written. */
    method UpdatePassword(id: int, current: string, newPassword: string, check: (string, string) -> bool,
                          hash: string -> Result<string>, now: Timestamp)
      returns (r: Result<()>)
      requires repo.Valid()
      modifies repo
      ensures repo.Valid()
      ensures id !in old(repo.users) ==> r == Err(ErrUserNotFound) && repo.Tables() == old(repo.Tables())
      ensures id in old(repo.users) && !check(current, old(repo.users)[id].password) ==>
                r == Err(ErrWrongPassword) && repo.Tables() == old(repo.Tables())
      ensures id in old(repo.users) && check(current, old(repo.users)[id].password) && hash(newPassword).Err? ==>
                r == Err(ErrHashFailed) && repo.Tables() == old(repo.Tables())
      ensures id in old(repo.users) && check(current, old(repo.users)[id].password) && hash(newPassword).Ok? ==>
                && r == Ok(())
                && repo.Tables() == old(repo.Tables()).(users := old(repo.users)[id :=
                     old(repo.users)[id].(password := hash(newPassword).value, updatedAt := now)])
    {
      var loaded := repo.GetByID(id);
      if loaded.None? {
        return Err(ErrUserNotFound);
      }
      if !check(current, loaded.value.password) {
        return Err(ErrWrongPassword);
      }
      var hashed := hash(newPassword);
      if hashed.Err? {
        return Err(ErrHashFailed);
      }
      repo.UpdatePassword(id, hashed.value, now);
      return Ok(());
    }

    /** DeleteUser: a missing user is refused; otherwise its row goes. */
    method DeleteUser(id: int) returns (r: Result<()>)
      requires repo.Valid()
      modifies repo
      ensures repo.Valid()
      ensures id !in old(repo.users) ==> r == Err(ErrUserNotFound) && repo.Tables() == old(repo.Tables())
      ensures id in old(repo.users) ==>
                r == Ok(()) && repo.Tables() == old(repo.Tables()).(users := old(repo.users) - {id})
    {
      var loaded := repo.GetByID(id);
      if loaded.None? {
        return Err(ErrUserNotFound);
      }
      repo.Delete(id);
      return Ok(());
    }

    /** GetUserPreferences: the user's stored preferences, or zh-CN, CNY,
        notifications on and the light theme when there are none. */
    method GetUserPreferences(userId: int) returns (p: UserPreference)
      ensures (forall id :: id in repo.preferences ==> repo.preferences[id].userId != userId) ==>
                p == UserPreference(0, userId, "zh-CN", "CNY", true, "light", "", "", None, None, "", 0, 0)
      ensures (exists id :: id in repo.preferences && repo.preferences[id].userId == userId) ==>
                p.id in repo.preferences && repo.preferences[p.id].userId == userId
                && p == ScanPreference(p.id, repo.preferences[p.id])
    {
      var stored := repo.GetUserPreferences(userId);
      if stored.None? {
        return UserPreference(0, userId, "zh-CN", "CNY", true, "light", "", "", None, None, "", 0, 0);
      }
      return stored.value;
    }

    /** SaveUserPreferences: saves the preferences as the caller's, whatever
        user id they carried. */
    method SaveUserPreferences(userId: int, pref: UserPreference, now: Timestamp) returns (saved: UserPreference)
      requires repo.Valid()
      modifies repo
      ensures repo.Valid()
      ensures saved.userId == userId
      ensures exists id :: id in repo.preferences && repo.preferences[id].userId == userId
      ensures forall id :: id in repo.preferences && repo.preferences[id].userId == userId ==>
                var p := ScanPreference(id, repo.preferences[id]);
                p.language == pref.language && p.currency == pref.currency
                && p.notificationEnabled == pref.notificationEnabled && p.theme == pref.theme
      ensures (forall id :: id in old(repo.preferences) ==> old(repo.preferences)[id].userId != userId) ==>
                && saved == pref.(userId := userId, id := old(repo.nextPreferenceId), createdAt := now, updatedAt := now)
                && repo.preferences == old(repo.preferences)[saved.id := PreferenceRowFor(pref.(userId := userId), now, now)]
      ensures (exists id :: id in old(repo.preferences) && old(repo.preferences)[id].userId == userId) ==>
                && saved == pref.(userId := userId, updatedAt := now)
                && repo.preferences.Keys == old(repo.preferences).Keys
      ensures forall id :: id in old(repo.preferences) && old(repo.preferences)[id].userId != userId ==>
                id in repo.preferences && repo.preferences[id] == old(repo.preferences)[id]
      ensures repo.users == old(repo.users) && repo.travel == old(repo.travel)
    {
      saved := repo.SaveUserPreferences(pref.(userId := userId), now);
    }

    /** GetTravelPreferences: the user's stored travel preferences, or a
        balanced style, a medium budget, the tags 景点, 美食 and 文化 and public
        transport when there are none. */
    method GetTravelPreferences(userId: int) returns (p: UserPreference)
      ensures (forall id :: id in repo.travel ==> repo.travel[id].userId != userId) ==>
                p == UserPreference(0, userId, "", "", false, "", "balanced", "medium",
                                    Some(["景点", "美食", "文化"]), None, "public", 0, 0)
      ensures (exists id :: id in repo.travel && repo.travel[id].userId == userId) ==>
                p.id in repo.travel && repo.travel[p.id].userId == userId
                && p == ScanTravel(p.id, repo.travel[p.id])
    {
      var stored := repo.GetTravelPreferences(userId);
      if stored.None? {
        return UserPreference(0, userId, "", "", false, "", "balanced", "medium",
                              Some(["景点", "美食", "文化"]), None, "public", 0, 0);
      }
      return stored.value;
    }

    /** SaveTravelPreferences: saves the travel preferences as the
        caller's; the tags read back are the tags saved. */
    method SaveTravelPreferences(userId: int, pref: UserPreference, now: Timestamp) returns (saved: UserPreference)
      requires repo.Valid()
      modifies repo
      ensures repo.Valid()
      ensures saved.userId == userId
      ensures exists id :: id in repo.travel && repo.travel[id].userId == userId
      ensures forall id :: id in repo.travel && repo.travel[id].userId == userId ==>
                var p := ScanTravel(id, repo.travel[id]);
                p.travelStyle == pref.travelStyle && p.budgetLevel == pref.budgetLevel
                && p.transportPrefer == pref.transportPrefer
                && p.preferredTags == pref.preferredTags && p.excludedTags == pref.excludedTags
      ensures (forall id :: id in old(repo.travel) ==> old(repo.travel)[id].userId != userId) ==>
                && saved == pref.(userId := userId, id := old(repo.nextTravelId), createdAt := now, updatedAt := now)
                && repo.travel == old(repo.travel)[saved.id := TravelRowFor(pref.(userId := userId), now, now)]
      ensures (exists id :: id in old(repo.travel) && old(repo.travel)[id].userId == userId) ==>
                && saved == pref.(userId := userId, updatedAt := now)
                && repo.travel.Keys == old(repo.travel).Keys
      ensures forall id :: id in old(repo.travel) && old(repo.travel)[id].userId != userId ==>
                id in repo.travel && repo.travel[id] == old(repo.travel)[id]
      ensures repo.users == old(repo.users) && repo.preferences == old(repo.preferences)
    {
      saved := repo.SaveTravelPreferences(pref.(userId := userId), now);
    }
  }
}
