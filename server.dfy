/** The session and route handlers of TFS/server.py for login and the song
    lists. A request body is a JSON object; the session is the `user_id`
    entry of Flask's session. Login, logout and the login check only touch
    the session and are functions; the other routes change the store. */
module Server {
  import opened Wrappers
  import opened Json
  import opened Seqs
  import opened Store

  /** `session.get('user_id')`. */
  type Session = Option<nat>

  datatype Method = GetMethod | PostMethod | DeleteMethod

  /** The JSON a handler answers with. */
  datatype Body =
    | Success(message: string)            // {"success": True, "message": …}
    | Message(text: string)               // {"message": …}
    | Error(text: string)                 // {"error": …}
    | LoginState(loggedIn: bool)          // {"logged_in": …}
    | Registered(userId: CreateUserResult) // {"success": True, "message": …, "user_id": <create_user's dict>}
    | LikedList(liked: seq<LikedSong>)
    | HiddenList(hidden: seq<HiddenSong>)
    | InternalServerError                 // Flask's page for an exception the handler lets escape

  datatype Reply = Reply(status: nat, body: Body)

  const NotLoggedIn := Reply(401, Error("Not logged in"))

  // ---------------------------------------------------------------------
  // check_login, login, logout
  // ---------------------------------------------------------------------

  function CheckLogin(session: Session): (r: Reply)
    ensures r.status == 200 && r.body.LoginState?
    ensures r.body.loggedIn <==> session.Some?
  {
    Reply(200, LoginState(session.Some?))
  }

  /** The reply of `login` once `verify_user` has answered, as written:
      every answer but a user has no `id`, so `user['id']` raises and the
      handler answers 500 with the text of the `KeyError`. */
  function LoginReply(v: VerifyResult): (r: Reply)
    ensures r.status == 200 <==> v.Verified?
    ensures v.Verified? ==> r.body == Success("Login successful")
    ensures !v.Verified? ==> r == Reply(500, Error("'id'"))
  {
    if v.Verified? then Reply(200, Success("Login successful")) else Reply(500, Error("'id'"))
  }

  /** The reply the `else` branch of `login` evidently means to give. */
  function LoginReplyIntended(v: VerifyResult): (r: Reply)
    ensures r.status == 200 <==> v.Verified?
    ensures v.Verified? ==> r.body == Success("Login successful")
    ensures !v.Verified? ==> r == Reply(401, Error("Invalid credentials"))
  {
    if v.Verified? then Reply(200, Success("Login successful")) else Reply(401, Error("Invalid credentials"))
  }

  /** `login()` on the users, the session and the body: the new session and
      the reply. */
  function Login(users: seq<User>, session: Session, data: JsonObject): (r: (Session, Reply))
    ensures "username" !in data || "password" !in data ==> r == (session, Reply(400, Error("Missing credentials")))
    ensures "username" in data && "password" in data ==>
      var v := VerifyValues(users, Value(data, "username"), Value(data, "password"));
      && r.1 == LoginReply(v)
      && r.0 == (if v.Verified? then Some(v.id) else session)
  {
    if "username" !in data || "password" !in data then (session, Reply(400, Error("Missing credentials")))
    else
      var v := VerifyValues(users, Value(data, "username"), Value(data, "password"));
      if v.Verified? then (Some(v.id), LoginReply(v)) else (session, LoginReply(v))
  }

  /** `login()` with the evidently intended 401 for a failed check. */
  function LoginIntended(users: seq<User>, session: Session, data: JsonObject): (r: (Session, Reply))
    ensures "username" !in data || "password" !in data ==> r == (session, Reply(400, Error("Missing credentials")))
    ensures "username" in data && "password" in data ==>
      var v := VerifyValues(users, Value(data, "username"), Value(data, "password"));
      && r.1 == LoginReplyIntended(v)
      && r.0 == (if v.Verified? then Some(v.id) else session)
  {
    if "username" !in data || "password" !in data then (session, Reply(400, Error("Missing credentials")))
    else
      var v := VerifyValues(users, Value(data, "username"), Value(data, "password"));
      if v.Verified? then (Some(v.id), LoginReplyIntended(v)) else (session, LoginReplyIntended(v))
  }

  /** `logout()`: drops the user from the session and always succeeds. */
  function Logout(session: Session): (r: (Session, Reply))
    ensures r.0.None? && r.1.status == 200
    ensures r.1.body == Success("Logout successful")
  {
    (None, Reply(200, Success("Logout successful")))
  }

  /** A successful login logs the session in as that user; a failed one
      leaves it as it was. */
  lemma LoginSetsSession(users: seq<User>, session: Session, data: JsonObject)
    ensures var (s, reply) := Login(users, session, data);
      && (reply.status == 200 ==> s.Some? && CheckLogin(s).body.loggedIn)
      && (reply.status != 200 ==> s == session)
  {
  }

  /** Logging out twice is logging out once, and the login check then says
      no. */
  lemma LogoutIdempotent(session: Session)
    ensures Logout(Logout(session).0) == Logout(session)
    ensures !CheckLogin(Logout(session).0).body.loggedIn
  {
  }

  /** As written, no failed login is answered with 401. */
  lemma FailedLoginIs500(users: seq<User>, session: Session, data: JsonObject)
    requires "username" in data && "password" in data
    requires !VerifyValues(users, Value(data, "username"), Value(data, "password")).Verified?
    ensures Login(users, session, data).1 == Reply(500, Error("'id'"))
    ensures LoginIntended(users, session, data).1.status == 401
  {
  }

  /** A wrong password for an existing user: 500 as written, 401 as
      intended. */
  lemma WrongPasswordExample()
    ensures var users := [User(1, "ann", GeneratePasswordHash("Secret1!", 7), "ann@example.com", "Ann", "Lee", None, None, None)];
      var data := map["username" := JStr("ann"), "password" := JStr("nope")];
      && Login(users, None, data) == (None, Reply(500, Error("'id'")))
      && LoginIntended(users, None, data) == (None, Reply(401, Error("Invalid credentials")))
  {
    var users := [User(1, "ann", GeneratePasswordHash("Secret1!", 7), "ann@example.com", "Ann", "Lee", None, None, None)];
    assert users[0].username == "ann";
    assert FindUser(users, "ann") == Some(0);
  }

  // ---------------------------------------------------------------------
  // register
  // ---------------------------------------------------------------------

  /** The required keys, in the order `register` checks them. */
  const RegisterKeys: seq<string> := ["username", "password", "email", "firstname", "lastname"]

  /** `[field for field in keys if not data.get(field)]`. */
  function MissingAmongKeys(data: JsonObject, keys: seq<string>): (missing: seq<string>)
    ensures forall k :: k in missing <==> k in keys && !Truthy(data, k)
    ensures IsSubsequence(missing, keys)
  {
    if keys == [] then []
    else
      var rest := MissingAmongKeys(data, keys[1..]);
      if Truthy(data, keys[0]) then rest
      else
        assert ([keys[0]] + rest)[1..] == rest;
        [keys[0]] + rest
  }

  /** The required keys whose value is falsy, in the order they are
      checked. */
  function MissingKeys(data: JsonObject): (missing: seq<string>)
    ensures forall k :: k in missing <==> k in RegisterKeys && !Truthy(data, k)
    ensures missing == [] <==>
      Truthy(data, "username") && Truthy(data, "password") && Truthy(data, "email") &&
      Truthy(data, "firstname") && Truthy(data, "lastname")
    ensures IsSubsequence(missing, RegisterKeys)
  {
    assert RegisterKeys[0] == "username" && RegisterKeys[1] == "password" && RegisterKeys[2] == "email";
    assert RegisterKeys[3] == "firstname" && RegisterKeys[4] == "lastname";
    MissingAmongKeys(data, RegisterKeys)
  }

  /** `sep.join(parts)`. */
  function Join(parts: seq<string>, sep: string): (r: string)
    ensures parts == [] ==> r == []
    ensures |parts| == 1 ==> r == parts[0]
  {
    if parts == [] then []
    else if |parts| == 1 then parts[0]
    else parts[0] + sep + Join(parts[1..], sep)
  }

  /** Joining one more part appends the separator and that part. */
  lemma {:induction false} JoinSnoc(parts: seq<string>, p: string, sep: string)
    requires parts != []
    ensures Join(parts + [p], sep) == Join(parts, sep) + sep + p
  {
    if |parts| == 1 {
      assert parts + [p] == [parts[0], p];
      assert Join([p], sep) == p;
    } else {
      assert (parts + [p])[1..] == parts[1..] + [p];
      JoinSnoc(parts[1..], p, sep);
    }
  }

  function MissingFieldsReply(missing: seq<string>): Reply {
    Reply(400, Error("Missing required fields: " + Join(missing, ", ")))
  }

  /** A body without an email and with an empty last name. */
  const TwoMissingBody: JsonObject :=
    map["username" := JStr("ann"), "password" := JStr("pw"), "firstname" := JStr("Ann"), "lastname" := JStr("")]

  /** Its missing keys are the email and the last name, in that order. */
  lemma TwoMissingKeys()
    ensures MissingKeys(TwoMissingBody) == ["email", "lastname"]
  {
    var data := TwoMissingBody;
    var keys := RegisterKeys;
    assert Truthy(data, "username") && Truthy(data, "password") && Truthy(data, "firstname");
    assert !Truthy(data, "email") && !Truthy(data, "lastname");
    assert keys[4..] == ["lastname"] && keys[4..][1..] == [];
    assert keys[3..][0] == "firstname" && keys[3..][1..] == keys[4..];
    assert keys[2..][0] == "email" && keys[2..][1..] == keys[3..];
    assert keys[1..][0] == "password" && keys[1..][1..] == keys[2..];
    assert MissingAmongKeys(data, keys[4..]) == ["lastname"];
    assert MissingAmongKeys(data, keys[3..]) == ["lastname"];
    assert MissingAmongKeys(data, keys[2..]) == ["email", "lastname"];
    assert MissingAmongKeys(data, keys[1..]) == ["email", "lastname"];
  }

  /** Such a body is refused with both keys named, in the checked order. */
  lemma MissingTwoExample()
    ensures MissingFieldsReply(MissingKeys(TwoMissingBody)) == Reply(400, Error("Missing required fields: " + ("email" + ", " + "lastname")))
  {
    TwoMissingKeys();
    assert ["email", "lastname"][1..] == ["lastname"];
    assert Join(["email", "lastname"], ", ") == "email" + ", " + "lastname";
  }

  /** The reply of `register` once `create_user` has returned, as written:
      its dict is never empty, so the success branch is always taken. */
  function RegisterReply(result: CreateUserResult): (r: Reply)
    ensures r.status == 200 && r.body.Registered? && r.body.userId == result
  {
    Reply(200, Registered(result))
  }

  /** The reply the `else` branch of `register` evidently means to give for
      a name or email that is taken. */
  function RegisterReplyIntended(result: CreateUserResult): (r: Reply)
    ensures r.status == 200 <==> result.Created?
    ensures !result.Created? ==> r.status == 409
  {
    if result.Created? then Reply(200, Registered(result))
    else Reply(409, Error("Failed to create user. Username or email might already exist."))
  }

  /** As written, a taken username is answered 200 with `success` true. */
  lemma TakenUsernameIs200()
    ensures RegisterReply(UsernameTaken) == Reply(200, Registered(UsernameTaken))
    ensures RegisterReplyIntended(UsernameTaken).status == 409
  {
  }

  // ---------------------------------------------------------------------
  // The application: session plus store
  // ---------------------------------------------------------------------

  class App {
    var session: Session
    const db: Database

    constructor (db: Database)
      ensures this.db == db && session.None?
    {
      this.db := db;
      session := None;
    }

    /** `register()`, as written. */
    method Register(data: JsonObject, salt: nat) returns (reply: Reply)
      requires db.Valid()
      modifies db
      ensures db.Valid()
      ensures MissingKeys(data) != [] ==> reply == MissingFieldsReply(MissingKeys(data)) && unchanged(db)
      ensures MissingKeys(data) == [] ==>
        var clash := ClashOn(old(db.users), data["username"].s, data["email"].s);
        && reply.status == 200
        && (clash.Some? ==> reply == RegisterReply(clash.value) && db.users == old(db.users) && db.lastUserId == old(db.lastUserId))
        && (clash.None? ==>
              && reply == RegisterReply(Created(db.lastUserId))
              && db.lastUserId == old(db.lastUserId) + 1
              && db.users == old(db.users) + [User(db.lastUserId, data["username"].s, GeneratePasswordHash(data["password"].s, salt),
                                                   data["email"].s, data["firstname"].s, data["lastname"].s,
                                                   Get(data, "dob"), Get(data, "sex"), Get(data, "country"))])
        && db.savedSongs == old(db.savedSongs) && db.hiddenSongs == old(db.hiddenSongs)
    {
      var missing := MissingKeys(data);
      if missing != [] {
        return MissingFieldsReply(missing);
      }
      assert "username" in RegisterKeys && "password" in RegisterKeys && "email" in RegisterKeys;
      assert "firstname" in RegisterKeys && "lastname" in RegisterKeys;
      var result := db.CreateUser(data["username"].s, data["password"].s, data["firstname"].s, data["lastname"].s,
                                  data["email"].s, Get(data, "dob"), Get(data, "sex"), Get(data, "country"), salt);
      reply := RegisterReply(result);
    }

    /** `/api/songs/like`: GET lists the user's liked songs, POST saves the
        song in the body, DELETE removes the body's `track_id`. */
    method HandleLike(m: Method, data: JsonObject, at: nat) returns (reply: Reply)
      modifies db
      ensures db.users == old(db.users) && db.lastUserId == old(db.lastUserId) && db.hiddenSongs == old(db.hiddenSongs)
      ensures session.None? ==> reply == NotLoggedIn && unchanged(db)
      ensures session.Some? && m == GetMethod ==>
        reply == Reply(200, LikedList(db.GetLikedSongs(session.value))) && unchanged(db)
      ensures session.Some? && m == PostMethod ==>
        match SongRowFrom(session.value, data, at)
        case NewRow(row) => reply == Reply(200, Message("Song liked")) && db.savedSongs == old(db.savedSongs) + [row]
        case NotNullViolation => reply == Reply(500, Error("Failed to like song")) && db.savedSongs == old(db.savedSongs)
        case KeyMissing => reply == Reply(500, InternalServerError) && db.savedSongs == old(db.savedSongs)
      ensures session.Some? && m == DeleteMethod && "track_id" !in data ==>
        reply == Reply(500, InternalServerError) && unchanged(db)
      ensures session.Some? && m == DeleteMethod && "track_id" in data ==>
        && reply == Reply(200, Message("Song unliked"))
        && db.savedSongs == DeleteWhere(old(db.savedSongs), session.value, Value(data, "track_id"))
    {
      if session.None? {
        return NotLoggedIn;
      }
      var userId := session.value;
      match m
      case GetMethod =>
        reply := Reply(200, LikedList(db.GetLikedSongs(userId)));
      case PostMethod =>
        var o := db.SaveSong(userId, data, at);
        reply := match o
          case Returned(true) => Reply(200, Message("Song liked"))
          case Returned(false) => Reply(500, Error("Failed to like song"))
          case Raised => Reply(500, InternalServerError);
      case DeleteMethod =>
        if "track_id" !in data {
          return Reply(500, InternalServerError);
        }
        // remove_song answers False only on an SQLite error
        var ok := db.RemoveSong(userId, Value(data, "track_id"));
        assert ok;
        reply := Reply(200, Message("Song unliked"));
    }

    /** `/api/songs/hide`. */
    method HideSong(data: JsonObject, at: nat) returns (reply: Reply)
      modifies db
      ensures db.users == old(db.users) && db.lastUserId == old(db.lastUserId) && db.savedSongs == old(db.savedSongs)
      ensures session.None? ==> reply == NotLoggedIn && unchanged(db)
      ensures session.Some? ==>
        match SongRowFrom(session.value, data, at)
        case NewRow(row) => reply == Reply(200, Message("Song hidden")) && db.hiddenSongs == old(db.hiddenSongs) + [row]
        case NotNullViolation => reply == Reply(500, Error("Failed to hide song")) && db.hiddenSongs == old(db.hiddenSongs)
        case KeyMissing => reply == Reply(500, InternalServerError) && db.hiddenSongs == old(db.hiddenSongs)
    {
      if session.None? {
        return NotLoggedIn;
      }
      var o := db.HideSong(session.value, data, at);
      reply := match o
        case Returned(true) => Reply(200, Message("Song hidden"))
        case Returned(false) => Reply(500, Error("Failed to hide song"))
        case Raised => Reply(500, InternalServerError);
    }

    /** `/api/songs/hidden`. */
    function GetHiddenSongs(): (r: Reply)
      reads this, db
      ensures session.None? ==> r == NotLoggedIn
      ensures session.Some? ==> r == Reply(200, HiddenList(db.GetHiddenSongs(session.value)))
      ensures session.Some? ==> Descending(r.body.hidden, (s: HiddenSong) => s.date)
      ensures session.Some? ==> multiset(r.body.hidden) == multiset(HiddenViews(RowsOf(db.hiddenSongs, session.value)))
    {
      if session.None? then NotLoggedIn else Reply(200, HiddenList(db.GetHiddenSongs(session.value)))
    }

    /** `/api/songs/unhide`. */
    method UnhideSong(data: JsonObject) returns (reply: Reply)
      modifies db
      ensures db.users == old(db.users) && db.lastUserId == old(db.lastUserId) && db.savedSongs == old(db.savedSongs)
      ensures session.None? ==> reply == NotLoggedIn && unchanged(db)
      ensures session.Some? && "track_id" !in data ==> reply == Reply(500, InternalServerError) && unchanged(db)
      ensures session.Some? && "track_id" in data ==>
        && reply == Reply(200, Message("Song unhidden"))
        && db.hiddenSongs == DeleteWhere(old(db.hiddenSongs), session.value, Value(data, "track_id"))
    {
      if session.None? {
        return NotLoggedIn;
      }
      if "track_id" !in data {
        return Reply(500, InternalServerError);
      }
      // unhide_song answers False only on an SQLite error
      var ok := db.UnhideSong(session.value, Value(data, "track_id"));
      assert ok;
      reply := Reply(200, Message("Song unhidden"));
    }

    /** `/api/check_login`. */
    function CheckLoginRoute(): (r: Reply)
      reads this
      ensures r == CheckLogin(session)
      ensures r.status == 200 && r.body.LoginState? && (r.body.loggedIn <==> session.Some?)
    {
      CheckLogin(session)
    }

    /** `/api/login`: updates the session as Login says. */
    method LoginRoute(data: JsonObject) returns (reply: Reply)
      modifies this
      ensures (session, reply) == Login(old(db.users), old(session), data)
    {
      var r := Login(db.users, session, data);
      session := r.0;
      reply := r.1;
    }

    /** `/api/logout`. */
    method LogoutRoute() returns (reply: Reply)
      modifies this
      ensures (session, reply) == Logout(old(session))
      ensures session.None? && reply == Reply(200, Success("Logout successful"))
    {
      var r := Logout(session);
      session := r.0;
      reply := r.1;
    }
  }
}
