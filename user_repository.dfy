/** The user store: the users table and the two preference tables, with
    the lookups that read a missing row as "no user", the writes, and the
    insert-or-update of preferences that keeps one row per user. */
module UserRepository {
  import opened Wrappers
  import opened UserModel

  /** A row of user_preferences. */
  datatype PreferenceRow = PreferenceRow(
    userId: int,
    language: string,
    currency: string,
    notificationEnabled: bool,
    theme: string,
    createdAt: Timestamp,
    updatedAt: Timestamp)

  /** The JSON text of a tag column, as a value: `null` or an array of
      strings. */
  datatype JsonTags = JsonNull | JsonArray(tags: seq<string>)

  /** A row of user_travel_preferences; a tag column may also be SQL NULL. */
  datatype TravelRow = TravelRow(
    userId: int,
    travelStyle: string,
    budgetLevel: string,
    transportPrefer: string,
    preferredTags: Option<JsonTags>,
    excludedTags: Option<JsonTags>,
    createdAt: Timestamp,
    updatedAt: Timestamp)

  /** json.Marshal of a []string: a nil slice is `null`. */
  function MarshalTags(tags: Option<seq<string>>): (j: JsonTags)
    ensures j.JsonNull? <==> tags.None?
  {
    if tags.None? then JsonNull else JsonArray(tags.value)
  }

  /** The tags of a column: SQL NULL (no bytes) and `null` both leave the
      slice nil, an array gives its strings. */
  function UnmarshalTags(column: Option<JsonTags>): (tags: Option<seq<string>>)
    ensures tags.Some? <==> column.Some? && column.value.JsonArray?
    ensures tags.Some? ==> tags.value == column.value.tags
  {
    if column.Some? && column.value.JsonArray? then Some(column.value.tags) else None
  }

  /** The tags written are the tags read back, nil and empty told apart. */
  lemma TagsRoundTrip(tags: Option<seq<string>>)
    ensures UnmarshalTags(Some(MarshalTags(tags))) == tags
  {
  }

  /** GetUserPreferences' scan: the general columns; the travel fields stay
      zero. */
  function ScanPreference(id: int, row: PreferenceRow): (p: UserPreference)
    ensures p.id == id && p.userId == row.userId
    ensures p.language == row.language && p.currency == row.currency
    ensures p.notificationEnabled == row.notificationEnabled && p.theme == row.theme
    ensures p.createdAt == row.createdAt && p.updatedAt == row.updatedAt
    ensures p.travelStyle == "" && p.budgetLevel == "" && p.transportPrefer == ""
    ensures p.preferredTags.None? && p.excludedTags.None?
  {
    UserPreference(id, row.userId, row.language, row.currency, row.notificationEnabled, row.theme,
                   "", "", None, None, "", row.createdAt, row.updatedAt)
  }

  /** GetTravelPreferences' scan: the travel columns with their tags
      decoded; the general fields and the timestamps stay zero. */
  function ScanTravel(id: int, row: TravelRow): (p: UserPreference)
    ensures p.id == id && p.userId == row.userId
    ensures p.travelStyle == row.travelStyle && p.budgetLevel == row.budgetLevel
    ensures p.transportPrefer == row.transportPrefer
    ensures p.preferredTags == UnmarshalTags(row.preferredTags) && p.excludedTags == UnmarshalTags(row.excludedTags)
    ensures p.language == "" && p.currency == "" && !p.notificationEnabled && p.theme == ""
    ensures p.createdAt == 0 && p.updatedAt == 0
  {
    UserPreference(id, row.userId, "", "", false, "", row.travelStyle, row.budgetLevel,
                   UnmarshalTags(row.preferredTags), UnmarshalTags(row.excludedTags),
                   row.transportPrefer, 0, 0)
  }

  /** No two preference rows belong to one user. */
  ghost predicate OnePreferencePerUser(rows: map<int, PreferenceRow>) {
    forall a, b :: a in rows && b in rows && rows[a].userId == rows[b].userId ==> a == b
  }

  ghost predicate OneTravelRowPerUser(rows: map<int, TravelRow>) {
    forall a, b :: a in rows && b in rows && rows[a].userId == rows[b].userId ==> a == b
  }

  /** The general preferences a save stores for its user. */
  function PreferenceRowFor(pref: UserPreference, createdAt: Timestamp, now: Timestamp): PreferenceRow {
    PreferenceRow(pref.userId, pref.language, pref.currency, pref.notificationEnabled, pref.theme, createdAt, now)
  }

  /** The travel preferences a save stores for its user. */
  function TravelRowFor(pref: UserPreference, createdAt: Timestamp, now: Timestamp): TravelRow {
    TravelRow(pref.userId, pref.travelStyle, pref.budgetLevel, pref.transportPrefer,
              Some(MarshalTags(pref.preferredTags)), Some(MarshalTags(pref.excludedTags)), createdAt, now)
  }

  /** What reading back a saved travel row yields: the saved travel fields
      and tags. */
  lemma TravelRowReadsBack(id: int, pref: UserPreference, createdAt: Timestamp, now: Timestamp)
    ensures var p := ScanTravel(id, TravelRowFor(pref, createdAt, now));
            && p.userId == pref.userId && p.travelStyle == pref.travelStyle
            && p.budgetLevel == pref.budgetLevel && p.transportPrefer == pref.transportPrefer
            && p.preferredTags == pref.preferredTags && p.excludedTags == pref.excludedTags
  {
    TagsRoundTrip(pref.preferredTags);
    TagsRoundTrip(pref.excludedTags);
  }

  /** The preference rows after an update by user id: the user's rows take
      the saved fields, every other row stays. */
  function UpdatePreferenceRows(rows: map<int, PreferenceRow>, pref: UserPreference, now: Timestamp): (r: map<int, PreferenceRow>)
    ensures r.Keys == rows.Keys
    ensures forall id :: id in r ==> r[id].userId == rows[id].userId
  {
    map id | id in rows :: if rows[id].userId == pref.userId then PreferenceRowFor(pref, rows[id].createdAt, now) else rows[id]
  }

  function UpdateTravelRows(rows: map<int, TravelRow>, pref: UserPreference, now: Timestamp): (r: map<int, TravelRow>)
    ensures r.Keys == rows.Keys
    ensures forall id :: id in r ==> r[id].userId == rows[id].userId
  {
    map id | id in rows :: if rows[id].userId == pref.userId then TravelRowFor(pref, rows[id].createdAt, now) else rows[id]
  }

  /** An insert for a user without a row keeps one row per user. */
  lemma InsertPreferenceKeepsOne(rows: map<int, PreferenceRow>, id: int, row: PreferenceRow)
    requires OnePreferencePerUser(rows) && id !in rows
    requires forall k :: k in rows ==> rows[k].userId != row.userId
    ensures OnePreferencePerUser(rows[id := row])
  {
  }

  lemma InsertTravelKeepsOne(rows: map<int, TravelRow>, id: int, row: TravelRow)
    requires OneTravelRowPerUser(rows) && id !in rows
    requires forall k :: k in rows ==> rows[k].userId != row.userId
    ensures OneTravelRowPerUser(rows[id := row])
  {
  }

  /** An update by user id changes no row's owner, so keeps one row per user. */
  lemma UpdatePreferenceKeepsOne(rows: map<int, PreferenceRow>, pref: UserPreference, now: Timestamp)
    requires OnePreferencePerUser(rows)
    ensures OnePreferencePerUser(UpdatePreferenceRows(rows, pref, now))
  {
  }

  lemma UpdateTravelKeepsOne(rows: map<int, TravelRow>, pref: UserPreference, now: Timestamp)
    requires OneTravelRowPerUser(rows)
    ensures OneTravelRowPerUser(UpdateTravelRows(rows, pref, now))
  {
  }

  /** The three tables and their id sequences, as one value. */
  datatype UserTables = UserTables(
    users: map<int, UserRow>,
    nextUserId: int,
    preferences: map<int, PreferenceRow>,
    nextPreferenceId: int,
    travel: map<int, TravelRow>,
    nextTravelId: int)

  class UserStore {
    var users: map<int, UserRow>
    var nextUserId: int
    var preferences: map<int, PreferenceRow>
    var nextPreferenceId: int
    var travel: map<int, TravelRow>
    var nextTravelId: int

    function Tables(): UserTables
      reads this
    {
      UserTables(users, nextUserId, preferences, nextPreferenceId, travel, nextTravelId)
    }

    /** Keys below their sequences, and at most one preference row of each
        kind per user. */
    ghost predicate Valid()
      reads this
    {
      && (forall id :: id in users ==> id < nextUserId)
      && (forall id :: id in preferences ==> id < nextPreferenceId)
      && (forall id :: id in travel ==> id < nextTravelId)
      && OnePreferencePerUser(preferences)
      && OneTravelRowPerUser(travel)
    }

    constructor ()
      ensures Valid()
      ensures users == map[] && preferences == map[] && travel == map[]
    {
      users, preferences, travel := map[], map[], map[];
      nextUserId, nextPreferenceId, nextTravelId := 1, 1, 1;
    }

    /** GetByID: None when no row has the id. */
    function GetByID(id: int): (r: Option<User>)
      reads this
      ensures r.None? <==> id !in users
      ensures r.Some? ==> r.value == ScanUser(id, users[id])
    {
      if id in users then Some(ScanUser(id, users[id])) else None
    }

    /** GetByEmail: None when no row has the email, otherwise one of the
        rows that have it, decoded. */
    method GetByEmail(email: string) returns (r: Option<User>)
      ensures r.None? <==> forall id :: id in users ==> users[id].email != email
      ensures r.Some? ==> r.value.id in users && users[r.value.id].email == email
                          && r.value == ScanUser(r.value.id, users[r.value.id])
    {
      if id :| id in users && users[id].email == email {
        return Some(ScanUser(id, users[id]));
      }
      return None;
    }

    /** GetByUsername: the same lookup on the username column. */
    method GetByUsername(username: string) returns (r: Option<User>)
      ensures r.None? <==> forall id :: id in users ==> users[id].username != username
      ensures r.Some? ==> r.value.id in users && users[r.value.id].username == username
                          && r.value == ScanUser(r.value.id, users[r.value.id])
    {
      if id :| id in users && users[id].username == username {
        return Some(ScanUser(id, users[id]));
      }
      return None;
    }

    /** Create: stamps both timestamps with `now`, makes a nil flag true, and
        inserts the row under the next id. The user's own id field is not
        set; the new id is returned. */
    method Create(user: User, now: Timestamp) returns (id: int, stored: User)
      requires Valid()
      modifies this
      ensures Valid()
      ensures stored == user.(createdAt := now, updatedAt := now, isActive := Some(user.isActive.GetOr(true)))
      ensures id == old(nextUserId) && id !in old(users) && nextUserId == id + 1
      ensures users == old(users)[id := RowOf(stored)]
      ensures preferences == old(preferences) && travel == old(travel)
      ensures nextPreferenceId == old(nextPreferenceId) && nextTravelId == old(nextTravelId)
    {
      stored := user.(createdAt := now, updatedAt := now);
      if stored.isActive.None? {
        stored := stored.(isActive := Some(true));
      }
      id := nextUserId;
      users := users[id := RowOf(stored)];
      nextUserId := nextUserId + 1;
    }

    /** Update: rewrites every column but the password and created_at of the
        row with the user's id, stamping updated_at; a missing row is no
        error and changes nothing. */
    method Update(user: User, now: Timestamp) returns (stored: User)
      requires Valid()
      modifies this
      ensures Valid()
      ensures stored == user.(updatedAt := now)
      ensures user.id in old(users) ==>
                users == old(users)[user.id := RowOf(stored).(password := old(users)[user.id].password,
                                                             createdAt := old(users)[user.id].createdAt)]
      ensures user.id !in old(users) ==> users == old(users)
      ensures nextUserId == old(nextUserId) && preferences == old(preferences) && travel == old(travel)
      ensures nextPreferenceId == old(nextPreferenceId) && nextTravelId == old(nextTravelId)
    {
      stored := user.(updatedAt := now);
      if stored.id in users {
        var row := users[stored.id];
        users := users[stored.id := RowOf(stored).(password := row.password, createdAt := row.createdAt)];
      }
    }

    /** UpdatePassword: only the password and updated_at of the row change;
        a missing row changes nothing. */
    method UpdatePassword(userId: int, hashedPassword: string, now: Timestamp)
      requires Valid()
      modifies this
      ensures Valid()
      ensures userId in old(users) ==>
                users == old(users)[userId := old(users)[userId].(password := hashedPassword, updatedAt := now)]
      ensures userId !in old(users) ==> users == old(users)
      ensures nextUserId == old(nextUserId) && preferences == old(preferences) && travel == old(travel)
      ensures nextPreferenceId == old(nextPreferenceId) && nextTravelId == old(nextTravelId)
    {
      if userId in users {
        users := users[userId := users[userId].(password := hashedPassword, updatedAt := now)];
      }
    }

    /** Delete: the row goes, if there was one; no error either way. */
    method Delete(id: int)
      requires Valid()
      modifies this
      ensures Valid()
      ensures users == old(users) - {id}
      ensures nextUserId == old(nextUserId) && preferences == old(preferences) && travel == old(travel)
      ensures nextPreferenceId == old(nextPreferenceId) && nextTravelId == old(nextTravelId)
    {
      users := users - {id};
    }

    /** GetUserPreferences: None when the user has no row. */
    method GetUserPreferences(userId: int) returns (r: Option<UserPreference>)
      ensures r.None? <==> forall id :: id in preferences ==> preferences[id].userId != userId
      ensures r.Some? ==> r.value.id in preferences && preferences[r.value.id].userId == userId
                          && r.value == ScanPreference(r.value.id, preferences[r.value.id])
    {
      if id :| id in preferences && preferences[id].userId == userId {
        return Some(ScanPreference(id, preferences[id]));
      }
      return None;
    }

    /** SaveUserPreferences: inserts a row when the user has none, otherwise
        updates the user's row; either way the user ends with exactly one
        row, holding the saved fields. */
    method SaveUserPreferences(pref: UserPreference, now: Timestamp) returns (saved: UserPreference)
      requires Valid()
      modifies this
      ensures Valid()
      ensures saved.updatedAt == now && saved.userId == pref.userId
      ensures (forall id :: id in old(preferences) ==> old(preferences)[id].userId != pref.userId) ==>
                && saved == pref.(id := old(nextPreferenceId), createdAt := now, updatedAt := now)
                && preferences == old(preferences)[saved.id := PreferenceRowFor(pref, now, now)]
      ensures (exists id :: id in old(preferences) && old(preferences)[id].userId == pref.userId) ==>
                && saved == pref.(updatedAt := now)
                && preferences.Keys == old(preferences).Keys
                && forall id :: id in preferences ==>
                     preferences[id] == if old(preferences)[id].userId == pref.userId
                                        then PreferenceRowFor(pref, old(preferences)[id].createdAt, now)
                                        else old(preferences)[id]
      ensures exists id :: id in preferences && preferences[id].userId == pref.userId
      ensures forall id :: id in preferences && preferences[id].userId == pref.userId ==>
                var p := ScanPreference(id, preferences[id]);
                p.language == pref.language && p.currency == pref.currency
                && p.notificationEnabled == pref.notificationEnabled && p.theme == pref.theme
      ensures users == old(users) && nextUserId == old(nextUserId)
      ensures travel == old(travel) && nextTravelId == old(nextTravelId)
    {
      var existing := GetUserPreferences(pref.userId);
      saved := pref.(updatedAt := now);
      var rows := preferences;
      if existing.None? {
        saved := saved.(createdAt := now);
        var id := nextPreferenceId;
        InsertPreferenceKeepsOne(rows, id, PreferenceRowFor(saved, now, now));
        rows := rows[id := PreferenceRowFor(saved, now, now)];
        nextPreferenceId := nextPreferenceId + 1;
        saved := saved.(id := id);
        assert rows[id].userId == pref.userId;
      } else {
        UpdatePreferenceKeepsOne(rows, pref, now);
        rows := UpdatePreferenceRows(rows, pref, now);
        assert rows[existing.value.id].userId == pref.userId;
      }
      preferences := rows;
    }

    /** GetTravelPreferences: None when the user has no row; the tags come
        back decoded. */
    method GetTravelPreferences(userId: int) returns (r: Option<UserPreference>)
      ensures r.None? <==> forall id :: id in travel ==> travel[id].userId != userId
      ensures r.Some? ==> r.value.id in travel && travel[r.value.id].userId == userId
                          && r.value == ScanTravel(r.value.id, travel[r.value.id])
    {
      if id :| id in travel && travel[id].userId == userId {
        return Some(ScanTravel(id, travel[id]));
      }
      return None;
    }

    /** SaveTravelPreferences: the same insert-or-update on the travel
        table; the tags stored are the ones read back. */
    method SaveTravelPreferences(pref: UserPreference, now: Timestamp) returns (saved: UserPreference)
      requires Valid()
      modifies this
      ensures Valid()
      ensures saved.updatedAt == now && saved.userId == pref.userId
      ensures (forall id :: id in old(travel) ==> old(travel)[id].userId != pref.userId) ==>
                && saved == pref.(id := old(nextTravelId), createdAt := now, updatedAt := now)
                && travel == old(travel)[saved.id := TravelRowFor(pref, now, now)]
      ensures (exists id :: id in old(travel) && old(travel)[id].userId == pref.userId) ==>
                && saved == pref.(updatedAt := now)
                && travel.Keys == old(travel).Keys
                && forall id :: id in travel ==>
                     travel[id] == if old(travel)[id].userId == pref.userId
                                   then TravelRowFor(pref, old(travel)[id].createdAt, now)
                                   else old(travel)[id]
      ensures exists id :: id in travel && travel[id].userId == pref.userId
      ensures forall id :: id in travel && travel[id].userId == pref.userId ==>
                var p := ScanTravel(id, travel[id]);
                p.travelStyle == pref.travelStyle && p.budgetLevel == pref.budgetLevel
                && p.transportPrefer == pref.transportPrefer
                && p.preferredTags == pref.preferredTags && p.excludedTags == pref.excludedTags
      ensures users == old(users) && nextUserId == old(nextUserId)
      ensures preferences == old(preferences) && nextPreferenceId == old(nextPreferenceId)
    {
      var existing := GetTravelPreferences(pref.userId);
      TagsRoundTrip(pref.preferredTags);
      TagsRoundTrip(pref.excludedTags);
      saved := pref.(updatedAt := now);
      var rows := travel;
      if existing.None? {
        saved := saved.(createdAt := now);
        var id := nextTravelId;
        InsertTravelKeepsOne(rows, id, TravelRowFor(saved, now, now));
        rows := rows[id := TravelRowFor(saved, now, now)];
        nextTravelId := nextTravelId + 1;
        saved := saved.(id := id);
        assert rows[id].userId == pref.userId;
      } else {
        UpdateTravelKeepsOne(rows, pref, now);
        rows := UpdateTravelRows(rows, pref, now);
        assert rows[existing.value.id].userId == pref.userId;
      }
      travel := rows;
    }
  }
}
