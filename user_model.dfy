/** Users as the services see them, the row they are stored as, and the
    decoding of that row with its NULL defaults. */
module UserModel {
  import opened Wrappers

  type Timestamp = int

  /** models.User; `isActive` is the Go `*bool`, None for nil. */
  datatype User = User(
    id: int,
    username: string,
    email: string,
    password: string,
    firstName: string,
    lastName: string,
    phone: string,
    avatar: string,
    isActive: Option<bool>,
    createdAt: Timestamp,
    updatedAt: Timestamp)

  /** models.CreateUserRequest. */
  datatype CreateUserRequest = CreateUserRequest(
    username: string,
    email: string,
    password: string,
    firstName: string,
    lastName: string,
    phone: string)

  /** models.UserResponse: the user without password, phone and flags. */
  datatype UserResponse = UserResponse(
    id: int,
    username: string,
    email: string,
    firstName: string,
    lastName: string,
    avatar: string)

  /** A row of the users table (its key, the id, is kept apart); phone,
      avatar and is_active are nullable. */
  datatype UserRow = UserRow(
    username: string,
    email: string,
    password: string,
    firstName: string,
    lastName: string,
    phone: Option<string>,
    avatar: Option<string>,
    isActive: Option<bool>,
    createdAt: Timestamp,
    updatedAt: Timestamp)

  /** ToUserResponse: id, names, email and avatar, copied. */
  function ToUserResponse(u: User): (r: UserResponse)
    ensures r.id == u.id && r.username == u.username && r.email == u.email
    ensures r.firstName == u.firstName && r.lastName == u.lastName && r.avatar == u.avatar
  {
    UserResponse(u.id, u.username, u.email, u.firstName, u.lastName, u.avatar)
  }

  /** The response does not depend on the password, the phone, the flag or
      the timestamps: it reveals none of them. */
  lemma ResponseHidesSecrets(u: User, password: string, phone: string, isActive: Option<bool>, t: Timestamp)
    ensures ToUserResponse(u.(password := password, phone := phone, isActive := isActive, createdAt := t, updatedAt := t))
            == ToUserResponse(u)
  {
  }

  /** ScanUser: a NULL phone or avatar reads as "", a NULL is_active as
      true; every other column as stored. */
  function ScanUser(id: int, row: UserRow): (u: User)
    ensures u.id == id && u.username == row.username && u.email == row.email && u.password == row.password
    ensures u.firstName == row.firstName && u.lastName == row.lastName
    ensures u.phone == row.phone.GetOr("") && u.avatar == row.avatar.GetOr("")
    ensures u.isActive == Some(row.isActive.GetOr(true))
    ensures u.createdAt == row.createdAt && u.updatedAt == row.updatedAt
  {
    User(id, row.username, row.email, row.password, row.firstName, row.lastName,
         if row.phone.Some? then row.phone.value else "",
         if row.avatar.Some? then row.avatar.value else "",
         Some(if row.isActive.Some? then row.isActive.value else true),
         row.createdAt, row.updatedAt)
  }

  /** The row a user is written as: every field as it is, never NULL. */
  function RowOf(u: User): UserRow {
    UserRow(u.username, u.email, u.password, u.firstName, u.lastName,
            Some(u.phone), Some(u.avatar), u.isActive, u.createdAt, u.updatedAt)
  }

  /** A user written with its flag set reads back unchanged. */
  lemma ScanRowOf(u: User)
    requires u.isActive.Some?
    ensures ScanUser(u.id, RowOf(u)) == u
  {
  }

  /** Writing back what was read keeps the meaning of the row: the user read
      back is the same, though NULLs are now stored as their defaults. */
  lemma RowOfScanReadsSame(id: int, row: UserRow)
    ensures ScanUser(id, RowOf(ScanUser(id, row))) == ScanUser(id, row)
  {
    ScanRowOf(ScanUser(id, row));
  }

  /** The active test of the services: a nil or false flag is inactive. */
  predicate IsActive(u: User) {
    u.isActive.Some? && u.isActive.value
  }

  /** A decoded user is inactive only when the column says false. */
  lemma ScannedActive(id: int, row: UserRow)
    ensures IsActive(ScanUser(id, row)) <==> row.isActive != Some(false)
  {
  }

  /** models.UserPreference, shared by the general and the travel
      preferences; a nil tag list is None. */
  datatype UserPreference = UserPreference(
    id: int,
    userId: int,
    language: string,
    currency: string,
    notificationEnabled: bool,
    theme: string,
    travelStyle: string,
    budgetLevel: string,
    preferredTags: Option<seq<string>>,
    excludedTags: Option<seq<string>>,
    transportPrefer: string,
    createdAt: Timestamp,
    updatedAt: Timestamp)

  /** strings.ToLower, on ASCII letters only. */
  function ToLower(s: string): (r: string)
    ensures |r| == |s|
    ensures forall i :: 0 <= i < |s| ==> r[i] == (if 'A' <= s[i] <= 'Z' then (s[i] as int + 32) as char else s[i])
  {
    if |s| == 0 then ""
    else ToLower(s[..|s| - 1]) + [if 'A' <= s[|s| - 1] <= 'Z' then (s[|s| - 1] as int + 32) as char else s[|s| - 1]]
  }

  /** Lower-casing twice is lower-casing once. */
  lemma ToLowerIdempotent(s: string)
    ensures ToLower(ToLower(s)) == ToLower(s)
  {
    assert forall i :: 0 <= i < |s| ==> ToLower(ToLower(s))[i] == ToLower(s)[i];
  }
}
