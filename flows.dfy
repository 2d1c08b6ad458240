/** What the TFS page and the TFS server do together: the bodies the page
    posts, the server's answers to them and what the page then tells the
    user. */
module Flows {
  import opened Wrappers
  import opened Text
  import opened Json
  import opened Forms
  import opened Store
  import opened Server

  /** `JSON.stringify(formData)` of `handleRegister`. */
  function RegisterBody(f: RegisterForm): JsonObject {
    map["username" := JStr(f.username), "email" := JStr(f.email), "password" := JStr(f.password),
        "firstname" := JStr(f.firstname), "lastname" := JStr(f.lastname), "dob" := JStr(f.dob),
        "sex" := JStr(f.sex), "country" := JStr(f.country)]
  }

  /** `JSON.stringify({ username, password })` of `handleLogin`. */
  function LoginBody(username: string, password: string): JsonObject {
    map["username" := JStr(username), "password" := JStr(password)]
  }

  /** The body `likeSong` and `hideSong` post. */
  function SongBody(songId: string, title: string, artist: string, cover: string): JsonObject {
    map["track_id" := JStr(songId), "track_name" := JStr(title), "artist_name" := JStr(artist), "album_cover" := JStr(cover)]
  }

  /** The server's field check on the page's body reads the five fields. */
  lemma RegisterBodyMissing(f: RegisterForm)
    ensures MissingKeys(RegisterBody(f)) == [] <==>
      f.username != [] && f.email != [] && f.password != [] && f.firstname != [] && f.lastname != []
  {
    var body := RegisterBody(f);
    assert Truthy(body, "username") <==> f.username != [];
    assert Truthy(body, "email") <==> f.email != [];
    assert Truthy(body, "password") <==> f.password != [];
    assert Truthy(body, "firstname") <==> f.firstname != [];
    assert Truthy(body, "lastname") <==> f.lastname != [];
  }

  /** The page and the server refuse the same registration forms: the page
      stops before posting exactly when the server would answer 400. */
  lemma ClientAndServerRequireTheSameFields(raw: RegisterForm)
    ensures var f := ReadForm(raw);
      RegistrationBlocked(f) <==> MissingKeys(RegisterBody(f)) != []
  {
    RegisterBodyMissing(ReadForm(raw));
    BlockedReadsFiveFields(ReadForm(raw));
  }

  /** Credentials the login form lets through are never answered 400; the
      answer is 200 exactly when the store verifies them. */
  lemma ClientLoginPassesServerCheck(users: seq<User>, session: Session, username: string, password: string)
    requires LoginCredentials(username, password).Some?
    ensures var (name, pw) := LoginCredentials(username, password).value;
      var reply := Login(users, session, LoginBody(name, pw)).1;
      && reply.status != 400
      && (reply.status == 200 <==> VerifyOn(users, name, pw).Verified?)
  {
  }

  /** `data.success` as the page reads it. */
  predicate SuccessFlag(b: Body) {
    b.Success? || b.Registered?
  }

  /** `data.error` as the page reads it. */
  function ErrorText(b: Body): Option<string> {
    if b.Error? then Some(b.text) else None
  }

  /** The alert `handleRegister` shows for the server's reply. */
  function RegisterAlert(reply: Reply): (text: string)
    ensures SuccessFlag(reply.body) ==> text == "Registration successful! Please login."
    ensures reply.body.Error? ==> text == RegisterFailureMessage(Some(reply.body.text))
  {
    if SuccessFlag(reply.body) then "Registration successful! Please login."
    else if reply.body.InternalServerError? then "Registration failed. Please try again later."
    else RegisterFailureMessage(ErrorText(reply.body))
  }

  /** As written, a taken username or email is reported to the user as a
      successful registration; with the intended 409 it is reported as a
      failure. */
  lemma TakenNameReportedAsSuccess(result: CreateUserResult)
    ensures RegisterAlert(RegisterReply(result)) == "Registration successful! Please login."
    ensures RegisterAlert(RegisterReplyIntended(result)) == "Registration successful! Please login." <==> result.Created?
  {
  }

  /** The alert `handleLogin` shows for the server's reply; None when the
      login succeeds and the page reloads. */
  function LoginAlert(reply: Reply): (text: Option<string>)
    ensures text.None? <==> SuccessFlag(reply.body)
    ensures !SuccessFlag(reply.body) && reply.body.Error? && reply.body.text != [] ==> text == Some(reply.body.text)
    ensures !SuccessFlag(reply.body) && !(reply.body.Error? && reply.body.text != []) ==>
      text == Some("Login failed. Please try again.")
  {
    if SuccessFlag(reply.body) then None
    else match ErrorText(reply.body)
      case Some(e) => if e != [] then Some(e) else Some("Login failed. Please try again.")
      case None => Some("Login failed. Please try again.")
  }

  /** As written, a wrong password shows the user the text `'id'`; the
      intended reply shows "Invalid credentials". */
  lemma WrongPasswordAlert(users: seq<User>, session: Session, username: string, password: string)
    requires LoginCredentials(username, password).Some?
    requires !VerifyOn(users, LoginCredentials(username, password).value.0, LoginCredentials(username, password).value.1).Verified?
    ensures var (name, pw) := LoginCredentials(username, password).value;
      && LoginAlert(Login(users, session, LoginBody(name, pw)).1) == Some("'id'")
      && LoginAlert(LoginIntended(users, session, LoginBody(name, pw)).1) == Some("Invalid credentials")
  {
  }

  /** The song body the page posts always yields a row with the page's
      song id. */
  lemma SongBodySaves(userId: nat, songId: string, title: string, artist: string, cover: string, at: nat)
    ensures SongRowFrom(userId, SongBody(songId, title, artist, cover), at) ==
      NewRow(TrackRow(userId, songId, title, artist, Some(cover), at))
  {
  }

  /** Liking a song and then unliking it from the page leaves the user with
      no row of that song, and every other row as it was. */
  lemma LikeThenUnlike(rows: seq<TrackRow>, userId: nat, songId: string, title: string, artist: string, cover: string, at: nat)
    ensures var row := SongRowFrom(userId, SongBody(songId, title, artist, cover), at).row;
      var after := DeleteWhere(rows + [row], userId, Value(SongBody(songId, title, artist, cover), "track_id"));
      && after == DeleteWhere(rows, userId, Some(songId))
      && (forall x :: x in after ==> !(x.userId == userId && x.trackId == songId))
  {
    var body := SongBody(songId, title, artist, cover);
    var row := TrackRow(userId, songId, title, artist, Some(cover), at);
    SongBodySaves(userId, songId, title, artist, cover, at);
    assert Value(body, "track_id") == Some(songId);
    RemoveUndoesSave(rows, row);
    DeleteWhereExact(rows, userId, Some(songId));
  }
}
