/** JSON request bodies, reduced to what the route handlers and the store
    read from them. */
module Json {
  import opened Wrappers

  /** A JSON value as far as the handlers look at it: `null` or a string. */
  datatype JsonValue = JNull | JStr(s: string)

  /** A request body that is a JSON object. */
  type JsonObject = map<string, JsonValue>

  /** Python's `d.get(key)` read as a string: None for a missing key and for
      `null`. */
  function Get(d: JsonObject, key: string): (r: Option<string>)
    ensures r.None? <==> key !in d || d[key].JNull?
    ensures r.Some? ==> d[key] == JStr(r.value)
  {
    if key in d && d[key].JStr? then Some(d[key].s) else None
  }

  /** Python truthiness of `d.get(key)`: a non-empty string. */
  predicate Truthy(d: JsonObject, key: string) {
    key in d && d[key].JStr? && d[key].s != []
  }

  /** `d[key]` where the key is known to be there: `null` reads as None. */
  function Value(d: JsonObject, key: string): (r: Option<string>)
    requires key in d
    ensures r.None? <==> d[key].JNull?
    ensures r.Some? ==> d[key] == JStr(r.value)
  {
    if d[key].JStr? then Some(d[key].s) else None
  }
}

/** The TuneFuse store of TFS/database.py as three in-memory tables. SQLite
    returns rows of a `WHERE` without `ORDER BY` in insertion order here;
    `CURRENT_TIMESTAMP` is the parameter `at`. */
module Store {
  import opened Wrappers
  import opened Seqs
  import opened Text
  import opened Json

  // ---------------------------------------------------------------------
  // Password hashing
  // ---------------------------------------------------------------------

  /** werkzeug's salted hash, kept as the salt and what was hashed. */
  datatype PasswordHash = PasswordHash(salt: nat, secret: string)

  /** `generate_password_hash(password)`; the random salt is a parameter. */
  function GeneratePasswordHash(password: string, salt: nat): (h: PasswordHash)
    ensures CheckPasswordHash(h, password)
  {
    PasswordHash(salt, password)
  }

  /** `check_password_hash(h, password)`. */
  predicate CheckPasswordHash(h: PasswordHash, password: string) {
    h.secret == password
  }

  // ---------------------------------------------------------------------
  // Rows and results
  // ---------------------------------------------------------------------

  /** A row of `users` (`spotify_id` is never written and is left out). */
  datatype User = User(
    id: nat, username: string, password: PasswordHash, email: string,
    firstname: string, lastname: string,
    dob: Option<string>, sex: Option<string>, country: Option<string>)

  /** A row of `saved_songs` or `hidden_songs`; `at` is `saved_at` or
      `hidden_at`. */
  datatype TrackRow = TrackRow(
    userId: nat, trackId: string, trackName: string, artistName: string,
    albumCover: Option<string>, at: nat)

  /** What `create_user` returns: `{success: True, user_id}` or an error
      code. */
  datatype CreateUserResult = Created(userId: nat) | UsernameTaken | EmailTaken

  /** What `verify_user` returns: `{id, username, email}` or an error. */
  datatype VerifyResult = Verified(id: nat, username: string, email: string) | InvalidPassword | UserNotFound | DatabaseError

  /** How a write returned: with True or False, or by raising (a `KeyError`
      that is not a `sqlite3.Error` and escapes the method). */
  datatype WriteOutcome = Returned(ok: bool) | Raised

  // ---------------------------------------------------------------------
  // Users
  // ---------------------------------------------------------------------

  predicate Clashes(u: User, username: string, email: string) {
    Lower(u.username) == Lower(username) || Lower(u.email) == Lower(email)
  }

  /** Row `k` is the row `fetchone` returns for the duplicate check. */
  predicate FirstClashAt(users: seq<User>, k: nat, username: string, email: string) {
    && k < |users|
    && Clashes(users[k], username, email)
    && forall j :: 0 <= j < k ==> !Clashes(users[j], username, email)
  }

  /** The duplicate check of `create_user`: the first row whose username or
      email equals the new one case-insensitively decides, the username
      being compared first; None when no row clashes. */
  function ClashOn(users: seq<User>, username: string, email: string): (r: Option<CreateUserResult>)
    ensures r.None? <==> forall i :: 0 <= i < |users| ==> !Clashes(users[i], username, email)
    ensures r.Some? ==> r.value.UsernameTaken? || r.value.EmailTaken?
    ensures r == Some(UsernameTaken) ==> exists i :: 0 <= i < |users| && Lower(users[i].username) == Lower(username)
    ensures r == Some(EmailTaken) ==> exists i :: 0 <= i < |users| && Lower(users[i].email) == Lower(email)
    ensures forall k: nat :: FirstClashAt(users, k, username, email) ==>
      && (r == Some(UsernameTaken) <==> Lower(users[k].username) == Lower(username))
      && (r == Some(EmailTaken) <==> Lower(users[k].username) != Lower(username))
  {
    match FirstIndex(users, (u: User) => Clashes(u, username, email))
    case None => None
    case Some(k) =>
      if Lower(users[k].username) == Lower(username) then Some(UsernameTaken)
      else if Lower(users[k].email) == Lower(email) then Some(EmailTaken)
      else None
  }

  /** The store's invariant: ids are distinct and at most the last id handed
      out, and no two users share a username or an email up to case. */
  predicate UniqueUsers(users: seq<User>, lastId: nat) {
    && (forall i :: 0 <= i < |users| ==> 0 < users[i].id <= lastId)
    && (forall i, j :: 0 <= i < j < |users| ==>
          && users[i].id != users[j].id
          && Lower(users[i].username) != Lower(users[j].username)
          && Lower(users[i].email) != Lower(users[j].email))
  }

  /** Inserting a user that clashes with nobody, under the next id, keeps the
      invariant. */
  lemma InsertKeepsUnique(users: seq<User>, lastId: nat, u: User)
    requires UniqueUsers(users, lastId)
    requires ClashOn(users, u.username, u.email).None?
    requires u.id == lastId + 1
    ensures UniqueUsers(users + [u], lastId + 1)
  {
    var s := users + [u];
    forall i, j | 0 <= i < j < |s|
      ensures s[i].id != s[j].id && Lower(s[i].username) != Lower(s[j].username) && Lower(s[i].email) != Lower(s[j].email)
    {
      if j == |users| {
        assert !Clashes(users[i], u.username, u.email);
      }
    }
  }

  /** The index of the row `verify_user` settles on: the first exact
      username match, else the first username match up to case, else the
      first email match up to case. */
  function FindUser(users: seq<User>, login: string): (r: Option<nat>)
    ensures r.Some? ==> r.value < |users|
    ensures r.None? <==> forall i :: 0 <= i < |users| ==>
      users[i].username != login && Lower(users[i].username) != Lower(login) && Lower(users[i].email) != Lower(login)
    ensures (exists i :: 0 <= i < |users| && users[i].username == login) ==>
      r.Some? && users[r.value].username == login && forall i :: 0 <= i < r.value ==> users[i].username != login
    ensures (forall i :: 0 <= i < |users| ==> users[i].username != login) &&
            (exists i :: 0 <= i < |users| && Lower(users[i].username) == Lower(login)) ==>
      && r.Some? && Lower(users[r.value].username) == Lower(login)
      && forall i :: 0 <= i < r.value ==> Lower(users[i].username) != Lower(login)
    ensures (forall i :: 0 <= i < |users| ==> Lower(users[i].username) != Lower(login)) && r.Some? ==>
      && Lower(users[r.value].email) == Lower(login)
      && forall i :: 0 <= i < r.value ==> Lower(users[i].email) != Lower(login)
  {
    match FirstIndex(users, (u: User) => u.username == login)
    case Some(k) => Some(k)
    case None =>
      match FirstIndex(users, (u: User) => Lower(u.username) == Lower(login))
      case Some(k) => Some(k)
      case None => FirstIndex(users, (u: User) => Lower(u.email) == Lower(login))
  }

  /** `verify_user(login, password)` on the given users. */
  function VerifyOn(users: seq<User>, login: string, password: string): (r: VerifyResult)
    ensures r.UserNotFound? <==> FindUser(users, login).None?
    ensures r.Verified? ==> var k := FindUser(users, login).value;
      && r == Verified(users[k].id, users[k].username, users[k].email)
      && CheckPasswordHash(users[k].password, password)
    ensures r.InvalidPassword? ==> !CheckPasswordHash(users[FindUser(users, login).value].password, password)
    ensures FindUser(users, login).Some? ==> var k := FindUser(users, login).value;
      && (CheckPasswordHash(users[k].password, password) ==> r == Verified(users[k].id, users[k].username, users[k].email))
      && (!CheckPasswordHash(users[k].password, password) ==> r == InvalidPassword)
  {
    match FindUser(users, login)
    case None => UserNotFound
    case Some(k) =>
      if CheckPasswordHash(users[k].password, password) then Verified(users[k].id, users[k].username, users[k].email)
      else InvalidPassword
  }

  /** `verify_user(login, password)` for any JSON values: a `null` login
      matches no row, and a `null` password makes the hash check raise, which
      the method turns into `database_error`. */
  function VerifyValues(users: seq<User>, login: Option<string>, password: Option<string>): (r: VerifyResult)
    ensures login.None? ==> r == UserNotFound
    ensures login.Some? && password.Some? ==> r == VerifyOn(users, login.value, password.value)
    ensures r.Verified? ==> login.Some? && password.Some?
  {
    match login
    case None => UserNotFound
    case Some(name) =>
      match password
      case Some(p) => VerifyOn(users, name, p)
      case None => if FindUser(users, name).None? then UserNotFound else DatabaseError
  }

  /** A user just created can log in with their username and password. */
  lemma {:induction false} CreatedUserVerifies(users: seq<User>, u: User, password: string)
    requires ClashOn(users, u.username, u.email).None?
    requires CheckPasswordHash(u.password, password)
    ensures VerifyOn(users + [u], u.username, password) == Verified(u.id, u.username, u.email)
  {
    var s := users + [u];
    forall i | 0 <= i < |users| ensures s[i].username != u.username {
      assert !Clashes(users[i], u.username, u.email);
    }
    assert s[|users|].username == u.username;
    var k := FindUser(s, u.username).value;
    assert k == |users|;
  }

  // ---------------------------------------------------------------------
  // Song tables
  // ---------------------------------------------------------------------

  /** The row `save_song` and `hide_song` insert, or why they insert none. */
  datatype RowOutcome = NewRow(row: TrackRow) | NotNullViolation | KeyMissing

  /** Reads the row from a song body: `track_id` is the `spotify_id` entry
      when there is one, else the `track_id` entry; `track_id`, `track_name`
      and `artist_name` must be present (the fallback is evaluated even when
      `spotify_id` is there) and, apart from `album_cover`, must not be
      `null`. */
  function SongRowFrom(userId: nat, data: JsonObject, at: nat): (r: RowOutcome)
    ensures r.KeyMissing? <==> "track_id" !in data || "track_name" !in data || "artist_name" !in data
    ensures r.NewRow? ==>
      && r.row.userId == userId && r.row.at == at
      && JStr(r.row.trackId) == (if "spotify_id" in data then data["spotify_id"] else data["track_id"])
      && data["track_name"] == JStr(r.row.trackName)
      && data["artist_name"] == JStr(r.row.artistName)
      && r.row.albumCover == Get(data, "album_cover")
    ensures r.NotNullViolation? ==>
      (if "spotify_id" in data then data["spotify_id"] else data["track_id"]).JNull?
      || data["track_name"].JNull? || data["artist_name"].JNull?
  {
    if "track_id" !in data || "track_name" !in data || "artist_name" !in data then KeyMissing
    else
      var trackId := if "spotify_id" in data then data["spotify_id"] else data["track_id"];
      if trackId.JNull? || data["track_name"].JNull? || data["artist_name"].JNull? then NotNullViolation
      else NewRow(TrackRow(userId, trackId.s, data["track_name"].s, data["artist_name"].s, Get(data, "album_cover"), at))
  }

  /** The row `DELETE … WHERE user_id = ? AND track_id = ?` hits; a NULL
      track id matches nothing. */
  predicate Matches(row: TrackRow, userId: nat, trackId: Option<string>) {
    trackId.Some? && row.userId == userId && row.trackId == trackId.value
  }

  function DeleteWhere(rows: seq<TrackRow>, userId: nat, trackId: Option<string>): (r: seq<TrackRow>)
    ensures |r| <= |rows|
  {
    if rows == [] then []
    else (if Matches(rows[0], userId, trackId) then [] else [rows[0]]) + DeleteWhere(rows[1..], userId, trackId)
  }

  /** The delete removes every matching row and keeps every other row, as
      often as it occurs. */
  lemma {:induction false} DeleteWhereExact(rows: seq<TrackRow>, userId: nat, trackId: Option<string>)
    ensures forall x :: x in DeleteWhere(rows, userId, trackId) ==> !Matches(x, userId, trackId)
    ensures forall x :: !Matches(x, userId, trackId) ==>
      multiset(DeleteWhere(rows, userId, trackId))[x] == multiset(rows)[x]
  {
    if rows != [] {
      DeleteWhereExact(rows[1..], userId, trackId);
      assert rows == [rows[0]] + rows[1..];
    }
  }

  /** Deleting twice is deleting once. */
  lemma {:induction false} DeleteWhereIdempotent(rows: seq<TrackRow>, userId: nat, trackId: Option<string>)
    ensures DeleteWhere(DeleteWhere(rows, userId, trackId), userId, trackId) == DeleteWhere(rows, userId, trackId)
  {
    if rows != [] {
      DeleteWhereIdempotent(rows[1..], userId, trackId);
      var rest := DeleteWhere(rows[1..], userId, trackId);
      var d := DeleteWhere(rows, userId, trackId);
      if Matches(rows[0], userId, trackId) {
        assert d == rest;
      } else {
        assert d == [rows[0]] + rest;
        assert d[0] == rows[0] && d[1..] == rest;
      }
    }
  }

  lemma {:induction false} DeleteWhereAppend(rows: seq<TrackRow>, x: TrackRow, userId: nat, trackId: Option<string>)
    ensures DeleteWhere(rows + [x], userId, trackId) ==
      DeleteWhere(rows, userId, trackId) + (if Matches(x, userId, trackId) then [] else [x])
  {
    if rows == [] {
      assert [x][1..] == [];
    } else {
      assert (rows + [x])[1..] == rows[1..] + [x];
      DeleteWhereAppend(rows[1..], x, userId, trackId);
    }
  }

  /** Removing a track takes back every save of it: the table ends as if the
      last save had not happened and the earlier rows of it were removed. */
  lemma RemoveUndoesSave(rows: seq<TrackRow>, row: TrackRow)
    ensures DeleteWhere(rows + [row], row.userId, Some(row.trackId)) == DeleteWhere(rows, row.userId, Some(row.trackId))
  {
    DeleteWhereAppend(rows, row, row.userId, Some(row.trackId));
  }

  /** `WHERE user_id = ?`. */
  function RowsOf(rows: seq<TrackRow>, userId: nat): (r: seq<TrackRow>)
    ensures |r| <= |rows|
  {
    if rows == [] then []
    else (if rows[0].userId == userId then [rows[0]] else []) + RowsOf(rows[1..], userId)
  }

  /** The filter keeps exactly the user's rows, each as often as it occurs. */
  lemma {:induction false} RowsOfExact(rows: seq<TrackRow>, userId: nat)
    ensures forall x :: multiset(RowsOf(rows, userId))[x] == if x.userId == userId then multiset(rows)[x] else 0
  {
    if rows != [] {
      RowsOfExact(rows[1..], userId);
      assert rows == [rows[0]] + rows[1..];
    }
  }

  // ---------------------------------------------------------------------
  // ORDER BY … DESC
  // ---------------------------------------------------------------------

  predicate Descending<T>(s: seq<T>, key: T -> int) {
    forall i, j :: 0 <= i < j < |s| ==> key(s[i]) >= key(s[j])
  }

  function InsertDesc<T>(x: T, s: seq<T>, key: T -> int): (r: seq<T>)
    ensures multiset(r) == multiset(s) + multiset{x}
  {
    if s == [] || key(s[0]) <= key(x) then [x] + s
    else
      assert s == [s[0]] + s[1..];
      [s[0]] + InsertDesc(x, s[1..], key)
  }

  /** A head at least as large as everything after it extends a descending
      sequence. */
  lemma ConsDescending<T>(h: T, rest: seq<T>, key: T -> int)
    requires Descending(rest, key)
    requires forall y :: y in rest ==> key(h) >= key(y)
    ensures Descending([h] + rest, key)
  {
    var r := [h] + rest;
    forall i, j | 0 <= i < j < |r| ensures key(r[i]) >= key(r[j]) {
      assert r[j] == rest[j - 1];
      if i > 0 {
        assert r[i] == rest[i - 1];
      }
    }
  }

  /** Inserting into a descending sequence keeps it descending. */
  lemma {:induction false} InsertDescKeepsOrder<T>(x: T, s: seq<T>, key: T -> int)
    requires Descending(s, key)
    ensures Descending(InsertDesc(x, s, key), key)
  {
    if s == [] || key(s[0]) <= key(x) {
      ConsDescending(x, s, key);
    } else {
      var rest := InsertDesc(x, s[1..], key);
      InsertDescKeepsOrder(x, s[1..], key);
      forall y | y in rest ensures key(s[0]) >= key(y) {
        assert y in multiset(rest);
        if y != x {
          assert y in multiset(s[1..]);
          var j :| 0 <= j < |s[1..]| && s[1..][j] == y;
          assert s[j + 1] == y;
        }
      }
      ConsDescending(s[0], rest, key);
    }
  }

  /** The rows newest first (rows with equal times keep their table order). */
  function SortDesc<T>(s: seq<T>, key: T -> int): (r: seq<T>)
    ensures Descending(r, key)
    ensures multiset(r) == multiset(s)
  {
    if s == [] then []
    else
      assert s == [s[0]] + s[1..];
      InsertDescKeepsOrder(s[0], SortDesc(s[1..], key), key);
      InsertDesc(s[0], SortDesc(s[1..], key), key)
  }

  // ---------------------------------------------------------------------
  // Result dictionaries of the readers
  // ---------------------------------------------------------------------

  /** A dict of `get_liked_songs`: the track id is given twice. */
  datatype LikedSong = LikedSong(
    trackId: string, spotifyId: string, trackName: string, artistName: string,
    albumCover: Option<string>, savedAt: nat)

  /** A dict of `get_hidden_songs`: the track id is given as `id` and as
      `spotify_id`. */
  datatype HiddenSong = HiddenSong(
    id: string, spotifyId: string, title: string, artist: string, date: nat,
    albumCover: Option<string>)

  function LikedView(row: TrackRow): LikedSong {
    LikedSong(row.trackId, row.trackId, row.trackName, row.artistName, row.albumCover, row.at)
  }

  function HiddenView(row: TrackRow): HiddenSong {
    HiddenSong(row.trackId, row.trackId, row.trackName, row.artistName, row.at, row.albumCover)
  }

  function LikedViews(rows: seq<TrackRow>): seq<LikedSong> {
    seq(|rows|, i requires 0 <= i < |rows| => LikedView(rows[i]))
  }

  function HiddenViews(rows: seq<TrackRow>): seq<HiddenSong> {
    seq(|rows|, i requires 0 <= i < |rows| => HiddenView(rows[i]))
  }

  /** Every liked view gives the track id twice. */
  lemma LikedViewsAgree(rows: seq<TrackRow>)
    ensures forall x :: x in multiset(LikedViews(rows)) ==> x.trackId == x.spotifyId
  {
    forall x | x in multiset(LikedViews(rows)) ensures x.trackId == x.spotifyId {
      assert x in LikedViews(rows);
    }
  }

  /** Every hidden view gives the track id twice. */
  lemma HiddenViewsAgree(rows: seq<TrackRow>)
    ensures forall x :: x in multiset(HiddenViews(rows)) ==> x.id == x.spotifyId
  {
    forall x | x in multiset(HiddenViews(rows)) ensures x.id == x.spotifyId {
      assert x in HiddenViews(rows);
    }
  }

  // ---------------------------------------------------------------------
  // The database
  // ---------------------------------------------------------------------

  class Database {
    var users: seq<User>
    var savedSongs: seq<TrackRow>
    var hiddenSongs: seq<TrackRow>
    /** The AUTOINCREMENT counter of `users`. */
    var lastUserId: nat

    ghost predicate Valid()
      reads this
    {
      UniqueUsers(users, lastUserId)
    }

    /** `Database()` on a fresh file: three empty tables. */
    constructor ()
      ensures Valid()
      ensures users == [] && savedSongs == [] && hiddenSongs == [] && lastUserId == 0
    {
      users := [];
      savedSongs := [];
      hiddenSongs := [];
      lastUserId := 0;
    }

    /** `create_user(...)`: on a clash the tables are unchanged and the error
        code is returned; otherwise exactly one user is appended, with the
        hashed password and the next id, and that user can then log in. */
    method CreateUser(username: string, password: string, firstname: string, lastname: string, email: string,
                      dob: Option<string>, sex: Option<string>, country: Option<string>, salt: nat)
      returns (r: CreateUserResult)
      requires Valid()
      modifies this
      ensures Valid()
      ensures savedSongs == old(savedSongs) && hiddenSongs == old(hiddenSongs)
      ensures ClashOn(old(users), username, email).Some? ==>
        r == ClashOn(old(users), username, email).value && users == old(users) && lastUserId == old(lastUserId)
      ensures ClashOn(old(users), username, email).None? ==>
        && r == Created(old(lastUserId) + 1)
        && lastUserId == old(lastUserId) + 1
        && users == old(users) + [User(lastUserId, username, GeneratePasswordHash(password, salt), email,
                                       firstname, lastname, dob, sex, country)]
      ensures r.Created? ==> VerifyUser(username, password) == Verified(r.userId, username, email)
    {
      var clash := ClashOn(users, username, email);
      if clash.Some? {
        return clash.value;
      }
      var u := User(lastUserId + 1, username, GeneratePasswordHash(password, salt), email,
                    firstname, lastname, dob, sex, country);
      InsertKeepsUnique(users, lastUserId, u);
      CreatedUserVerifies(users, u, password);
      users := users + [u];
      lastUserId := lastUserId + 1;
      r := Created(lastUserId);
    }

    /** `verify_user(login, password)`. */
    function VerifyUser(login: string, password: string): (r: VerifyResult)
      reads this
      ensures r == VerifyOn(users, login, password)
      ensures r.UserNotFound? <==> FindUser(users, login).None?
    {
      VerifyOn(users, login, password)
    }

    /** `save_song(user_id, data)`: appends the row read from `data`, with no
        duplicate check; a `null` in a NOT NULL column returns False and a
        missing key raises, both leaving the table as it was. */
    method SaveSong(userId: nat, data: JsonObject, at: nat) returns (o: WriteOutcome)
      modifies this
      ensures users == old(users) && lastUserId == old(lastUserId) && hiddenSongs == old(hiddenSongs)
      ensures match SongRowFrom(userId, data, at)
        case NewRow(row) => o == Returned(true) && savedSongs == old(savedSongs) + [row]
        case NotNullViolation => o == Returned(false) && savedSongs == old(savedSongs)
        case KeyMissing => o == Raised && savedSongs == old(savedSongs)
    {
      match SongRowFrom(userId, data, at)
      case NewRow(row) =>
        savedSongs := savedSongs + [row];
        o := Returned(true);
      case NotNullViolation =>
        o := Returned(false);
      case KeyMissing =>
        o := Raised;
    }

    /** `hide_song(user_id, data)`: the same insert into `hidden_songs`. */
    method HideSong(userId: nat, data: JsonObject, at: nat) returns (o: WriteOutcome)
      modifies this
      ensures users == old(users) && lastUserId == old(lastUserId) && savedSongs == old(savedSongs)
      ensures match SongRowFrom(userId, data, at)
        case NewRow(row) => o == Returned(true) && hiddenSongs == old(hiddenSongs) + [row]
        case NotNullViolation => o == Returned(false) && hiddenSongs == old(hiddenSongs)
        case KeyMissing => o == Raised && hiddenSongs == old(hiddenSongs)
    {
      match SongRowFrom(userId, data, at)
      case NewRow(row) =>
        hiddenSongs := hiddenSongs + [row];
        o := Returned(true);
      case NotNullViolation =>
        o := Returned(false);
      case KeyMissing =>
        o := Raised;
    }

    /** `remove_song(user_id, track_id)`: deletes the user's rows of that
        track and returns True. */
    method RemoveSong(userId: nat, trackId: Option<string>) returns (ok: bool)
      modifies this
      ensures ok
      ensures users == old(users) && lastUserId == old(lastUserId) && hiddenSongs == old(hiddenSongs)
      ensures savedSongs == DeleteWhere(old(savedSongs), userId, trackId)
    {
      savedSongs := DeleteWhere(savedSongs, userId, trackId);
      ok := true;
    }

    /** `unhide_song(user_id, track_id)`: the same delete on
        `hidden_songs`. */
    method UnhideSong(userId: nat, trackId: Option<string>) returns (ok: bool)
      modifies this
      ensures ok
      ensures users == old(users) && lastUserId == old(lastUserId) && savedSongs == old(savedSongs)
      ensures hiddenSongs == DeleteWhere(old(hiddenSongs), userId, trackId)
    {
      hiddenSongs := DeleteWhere(hiddenSongs, userId, trackId);
      ok := true;
    }

    /** `get_liked_songs(user_id)`: exactly the user's rows, newest first. */
    function GetLikedSongs(userId: nat): (r: seq<LikedSong>)
      reads this
      ensures Descending(r, (s: LikedSong) => s.savedAt)
      ensures multiset(r) == multiset(LikedViews(RowsOf(savedSongs, userId)))
      ensures forall i :: 0 <= i < |r| ==> r[i].trackId == r[i].spotifyId
    {
      var r := SortDesc(LikedViews(RowsOf(savedSongs, userId)), (s: LikedSong) => s.savedAt);
      LikedViewsAgree(RowsOf(savedSongs, userId));
      assert forall i :: 0 <= i < |r| ==> r[i] in multiset(r);
      r
    }

    /** `get_hidden_songs(user_id)`: exactly the user's rows, newest first. */
    function GetHiddenSongs(userId: nat): (r: seq<HiddenSong>)
      reads this
      ensures Descending(r, (s: HiddenSong) => s.date)
      ensures multiset(r) == multiset(HiddenViews(RowsOf(hiddenSongs, userId)))
      ensures forall i :: 0 <= i < |r| ==> r[i].id == r[i].spotifyId
    {
      var r := SortDesc(HiddenViews(RowsOf(hiddenSongs, userId)), (s: HiddenSong) => s.date);
      HiddenViewsAgree(RowsOf(hiddenSongs, userId));
      assert forall i :: 0 <= i < |r| ==> r[i] in multiset(r);
      r
    }
  }
}
