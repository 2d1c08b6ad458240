# TuneFuse: the browser scripts, the store and the session routes

TuneFuse is a small music-recommendation site. Its browser code comes in two
versions, TFS/assets/js/app.js and TF/assets/js/app.js. This project models
what that code does:

- it gates and debounces search input;
- it scores passwords and enables the register button;
- it checks the registration and login forms and turns the server's answer
  into an alert;
- it likes, unlikes, hides and unhides songs on the page;
- it opens and closes modals and fills the liked and hidden lists.

The project also models the TFS server side:

- TFS/database.py, as three in-memory tables (`users`, `saved_songs`,
  `hidden_songs`);
- the session, registration, login and song-list routes of TFS/server.py.

Each part follows the shape of its source:

- The pure checks are datatypes and functions, with lemmas about them
  (`Text`, `Forms`, `Json`, the functions of `Store` and `Server`).
- The page is a `class Page` whose modals and song lists the handlers
  update in place (`Dom`, `TfsApp`, `TfApp`). The search box's debounce
  state is a `class SearchBox` (`Forms`).
- The database is a `class Database` whose tables the write methods
  reassign. The Flask application is a `class App` that holds the session
  and the database.
- `Flows` connects the two sides: the bodies the TFS page posts, what the
  server answers to them, and what the page then shows.

Some things the code does are parameters in the model:

- what a request returned: the login check as `loggedIn`, `response.ok` as
  `ok`, a list load's answer as a `ListReply`;
- the clock (`at`, standing for `CURRENT_TIMESTAMP`);
- werkzeug's random salt (`salt`).

Timers are collapsed. Each handler's state is the one after its animation
frame, its 10 ms or 300 ms delay, or its debounce has run.

The pure parts work on plain values. A string is a sequence of Unicode
scalar values (JavaScript counts UTF-16 code units instead; see "Left
out"). JSON request values are either `null` or a string. A JSON request
body is a map from keys to those values.

Notes on what the code does:

- The strength meter asks for a symbol as well as a capital, a small letter,
  a digit and eight characters. "Abcdef12" has no symbol, so it scores 4 of
  the 5 criteria and is a medium-strength password (`Forms.MediumExample`).
- `/api/register` answers 200 with `success: true` even when the name or
  email is taken (Findings).
- `/api/login` answers a failed check with 500, not 401 (Findings).
- TF/assets/js/app.js assigns `toggleModal`, `loadLikedSongs` and
  `loadHiddenSongs` more than once. The model follows the assignments in
  effect once both `DOMContentLoaded` listeners have run:
  - the `likeSong`, `hideSong` and synchronous-close `toggleModal` of the
    first listener (TF/assets/js/app.js:144-299);
  - the loaders of the second listener (TF/assets/js/app.js:562-675).

  Of the later top-level loaders, the one at TF/assets/js/app.js:679-736
  renders the same liked button. The one at TF/assets/js/app.js:884-945
  leaves the button's title out. Neither is in effect.

## Model

| member | source | states |
|---|---|---|
| Text.Trim | TFS/assets/js/app.js:66 | `trim()` yields a contiguous piece of the input with no whitespace at either end, and everything around it is whitespace |
| Text.TrimEmptyIffBlank | TFS/assets/js/app.js:495-498 | a trimmed field is empty exactly when the input is all whitespace, so a blank username is refused |
| Text.TrimIdempotent | TFS/assets/js/app.js:544-548 | trimming a trimmed value changes nothing |
| Text.Lower | TFS/database.py:90-99 | `LOWER` keeps the length, turns every ASCII capital into its own small letter, leaves no capital and keeps every other character |
| Text.LowerIdempotent | TFS/database.py:97-99 | lower-casing twice is lower-casing once, so the case-insensitive comparisons are consistent |
| Forms.ScheduledQuery | TFS/assets/js/app.js:64-72 | an input schedules nothing exactly when the trimmed text is shorter than the minimum (2 in TFS, 3 in TF/assets/js/app.js:31-38); otherwise it schedules the trimmed text |
| Forms.SearchBox.HandleInput | TFS/assets/js/app.js:64-72 | every input replaces the pending timer; a short query hides the suggestions and leaves no timer; no request is sent |
| Forms.SearchBox.TimerFires | TFS/assets/js/app.js:74-108 | the pending query, and only it, is sent once; the suggestions are shown exactly when the answer has at least one song (a failed request hides them) |
| Forms.LatestQueryWins | TFS/assets/js/app.js:64-74 | two inputs before the timer fires send at most one request, and it carries the later query |
| Forms.CountSatisfied | TFS/assets/js/app.js:663-676 | the score is at most the number of patterns, and reaches it exactly when every pattern matches |
| Forms.StrengthOf | TFS/assets/js/app.js:678-690 | the password is weak below 3 points and strong exactly at 5 |
| Forms.CheckPasswordStrength | TFS/assets/js/app.js:662-690 | the check returns true exactly for a strong password |
| Forms.StrongIffAllCriteria | TFS/assets/js/app.js:663-676 | strong means lower case, upper case, digit, symbol and a run of 8 characters all at once |
| Forms.RunOfEightIsLength | TFS/assets/js/app.js:669 | without line breaks, `/.{8,}/` is just "at least 8 characters" |
| Forms.ScoreIsSum | TFS/assets/js/app.js:673-675 | the score adds one point per pattern that matches |
| Forms.WeakExample | TFS/assets/js/app.js:678-681 | "abc" is a weak password |
| Forms.MediumExample | TFS/assets/js/app.js:682-685 | "Abcdef12" is only medium, because it has no symbol |
| Forms.StrongExample | TFS/assets/js/app.js:686-689 | "Abcdef1!" is strong |
| Forms.RegisterButtonEnabled | TFS/assets/js/app.js:692-698 | the register button is enabled exactly when the password is strong and equals its confirmation |
| Forms.ReadForm | TFS/assets/js/app.js:543-552 | the username, email, first and last name are the trimmed inputs; the password, date of birth, sex and country are kept as typed |
| Forms.ReadFormBlocked | TFS/assets/js/app.js:543-558 | in terms of what was typed, registration is refused exactly when the username, email, first or last name is blank or the password is empty; a password of spaces goes through |
| Forms.MissingAmongMembers | TF/assets/js/app.js:417 | the filter keeps exactly the empty required fields |
| Forms.MissingAmongOrdered | TF/assets/js/app.js:417 | the filter keeps the order of the required list |
| Forms.MissingFields | TF/assets/js/app.js:414-419 | TF's missing list holds exactly the empty required fields, in the order username, email, password, firstname, lastname |
| Forms.BlockedIffSomethingMissing | TFS/assets/js/app.js:555-559 | TFS's `some` check stops the form exactly when TF's missing list is non-empty |
| Forms.KnownErrorMessage | TFS/assets/js/app.js:591-596 | exactly the four error codes have a friendly text |
| Forms.RegisterFailureMessage | TFS/assets/js/app.js:598 | the failure text is the friendly text of a known code, else the code itself, else "Registration failed", and is never empty |
| Forms.LoginCredentials | TFS/assets/js/app.js:495-501 | the login form stops exactly when the trimmed username or the password is empty; otherwise it posts the trimmed username and the password as typed |
| Dom.ButtonFor | TFS/assets/js/app.js:229-231 | a liked button shows the liked icon and "Unlike this song"; a plain one shows the plain icon and "Like this song" |
| Dom.ModalIndex | TFS/assets/js/app.js:451 | `getElementById` finds the first modal with the id, or reports that none has it |
| Dom.ListIndex | TFS/assets/js/app.js:337 | `getElementById` finds the first list container with the id, in document order, or reports that none has it |
| Dom.Toggled | TFS/assets/js/app.js:449-488 | an unknown id changes nothing; a shown modal is closed alone; opening a hidden one clears every modal and leaves the target the only one shown; at most one modal stays shown |
| Dom.LockedAfterToggle | TFS/assets/js/app.js:462-475 | the page scroll is locked after the toggle exactly when the target ends up shown |
| Dom.SetLiked | TFS/assets/js/app.js:229-231 | only the clicked row's button changes: its flag, icon and title take the new state |
| Dom.RemoveAt | TFS/assets/js/app.js:240 | `remove()` takes out exactly that element; every other item and list stays, in order |
| Dom.RemoveAfterSetLiked | TFS/assets/js/app.js:227-238 | flipping a button and then removing its row is the same as removing the row |
| Dom.FillIfEmpty | TFS/assets/js/app.js:240-243 | an emptied list gets exactly its placeholder; a non-empty one is untouched |
| Dom.DropSongExact | TFS/assets/js/app.js:284-286 | removing every `data-song-id` match leaves no row of the song and keeps every other item as often as it occurred |
| Dom.DropSongSnoc | TFS/assets/js/app.js:285-286 | the removal works item by item in document order |
| Dom.WithoutSong | TFS/assets/js/app.js:284-286 | each list keeps its id and modal, and loses exactly the song's rows |
| Dom.FirstRowIn | TF/assets/js/app.js:225 | the first row of the song within one list, or none |
| Dom.FirstRowFrom | TF/assets/js/app.js:225 | `querySelector` finds the first row of the song in document order, and nothing before it is a row of the song |
| Dom.FirstRow | TF/assets/js/app.js:225 | the element found is a row of the song, and None means the page has none |
| Dom.RenderedItems | TFS/assets/js/app.js:346-391 | a non-empty answer gives one row per song, in order, all with the same button; an empty or non-array answer gives the empty text; a failure gives "Error loading songs" |
| Dom.RowsHaveIds | TFS/assets/js/app.js:349-351 | the rendered rows carry the answer's ids, in order |
| Dom.ReplaceItems | TFS/assets/js/app.js:349-351 | only the named container's children are replaced; a missing container changes nothing |
| Dom.Page.ToggleModal | TF/assets/js/app.js:263-299 | the modals become `Toggled`, the scroll lock follows the target, and the lists are untouched |
| Dom.Page.LoadLikedSongs | TFS/assets/js/app.js:335-392 | the liked list gets the rendered answer with liked buttons; the modals are untouched |
| Dom.Page.LoadHiddenSongs | TFS/assets/js/app.js:394-447 | the hidden list gets the rendered answer, with no like buttons |
| Dom.Page.UnhideSong | TFS/assets/js/app.js:308-332 | a confirmed unhide removes exactly the button's row and puts no placeholder in; a refused one changes nothing |
| TfsApp.LikeFlipsButton | TFS/assets/js/app.js:227-230 | outside the unlike-in-my-songs case, a confirmed click only flips that row's button |
| TfsApp.LikeTwiceRestores | TFS/assets/js/app.js:213-230 | with `mySongsModal` closed, two confirmed clicks restore the button and change nothing else |
| TfsApp.UnlikeInMySongs | TFS/assets/js/app.js:233-246 | an unlike in the shown `mySongsModal` removes exactly the clicked row; every list other than the liked list is then as the removal left it, and the liked list gets its placeholder exactly when it has no children afterwards (including when it had none before), so it is never left without children |
| TfsApp.LikeSong | TFS/assets/js/app.js:191-256 | nothing happens without a button, a song id or a login answer; a logged-out user gets the login modal; otherwise the request is DELETE exactly when the button was liked, and a confirmed request updates the lists as `ListsAfterLike` says |
| TfsApp.PlaceholderFor | TFS/assets/js/app.js:288-292 | only the liked and hidden lists have a placeholder |
| TfsApp.Refilled | TFS/assets/js/app.js:288-292 | a liked or hidden list with no children gets its own placeholder; any other list, or one with children, is unchanged |
| TfsApp.PlaceholderIfEmptied | TFS/assets/js/app.js:287-293 | an element with no enclosing list leaves the page as it is; with an enclosing list only that list can change, and it gets its placeholder exactly when it is the liked or hidden list and has no children |
| TfsApp.HideSong | TFS/assets/js/app.js:258-306 | logged out, the user gets the login modal; logged in, the song's id is sent, and a confirmed hide leaves every list without the song's rows and with nothing else changed |
| TfsApp.RemoveRowsIn | TFS/assets/js/app.js:283-296 | removing the matches one by one, with the detached empty-state check after each, is exactly `DropSong` on that list |
| TfsApp.HideIntended | TFS/assets/js/app.js:287-293 | with the intended check, every list keeps its id and modal |
| TfsApp.HideIntendedProperties | TFS/assets/js/app.js:283-296 | with the intended check, no row of the song is left; every other item keeps its count, plus one placeholder exactly when the hide emptied a liked or hidden list; such a list is never left blank |
| TfsApp.HideLeavesLikedListBlank | TFS/assets/js/app.js:283-296 | as written, hiding the only liked song leaves the liked list blank, where the intended check shows "No liked songs yet" |
| Dom.Page.ToggleModalAndLoad | TFS/assets/js/app.js:449-488 | opening `mySongsModal` or `hiddenSongsModal` also reloads its list; closing or an unknown id loads nothing; the modals and the scroll lock are as the toggle leaves them (TF's toggle at TF/assets/js/app.js:263-299 with its loaders at TF/assets/js/app.js:562-675 behaves the same) |
| TfApp.LikeRemovesOnlyInMySongs | TF/assets/js/app.js:179-192 | an unlike removes the row exactly when its button is inside `mySongsModal`; otherwise only that button flips |
| TfApp.UnlikeCanEmptyLikedList | TF/assets/js/app.js:185-191 | TF puts no placeholder in, so unliking the last liked song leaves the list empty |
| TfApp.LikeSong | TF/assets/js/app.js:144-200 | the same gates as in TFS; a confirmed request updates the lists as TF's `ListsAfterLike` says |
| TfApp.HideRemovesFirstOnly | TF/assets/js/app.js:222-228 | a confirmed hide removes the first row of the song in document order and keeps every other item |
| TfApp.HideLeavesSecondRow | TF/assets/js/app.js:222-228 | a second row of the same song survives the hide |
| TfApp.HideSong | TF/assets/js/app.js:202-237 | logged out, the user gets the login modal; logged in, a confirmed hide applies `ListsAfterHide` |
| Json.Value | TFS/server.py:201 | reading a present key gives None exactly for `null`, and the string itself for a string |
| Store.GeneratePasswordHash | TFS/database.py:103 | the password a hash was made from passes `check_password_hash` |
| Store.ClashOn | TFS/database.py:90-100 | the duplicate check finds nothing exactly when no user shares the name or the email up to case; otherwise the first clashing row decides, `username_taken` exactly when its name matches (the name is compared before the email) and `email_taken` otherwise |
| Store.InsertKeepsUnique | TFS/database.py:88-110 | inserting a non-clashing user under the next id keeps ids, names and emails unique |
| Store.FindUser | TFS/database.py:129-154 | the lookup fails exactly when no name, case-folded name or case-folded email matches; the first exact name match wins; without one, the first name match up to case; without that, the first email match up to case |
| Store.VerifyOn | TFS/database.py:156-167 | `user_not_found` exactly when the lookup fails; for the found user, a matching hash gives that user's id, name and email and a wrong password gives `invalid_password` (never `database_error`) |
| Store.VerifyValues | TFS/database.py:122-176 | a `null` login finds nobody; with two strings it is `VerifyOn`; only two strings can be verified |
| Store.CreatedUserVerifies | TFS/database.py:103-110 | a user just inserted can log in with their own username and password |
| Store.SongRowFrom | TFS/database.py:178-195 | a missing `track_id`, `track_name` or `artist_name` raises; `spotify_id` overrides `track_id`; a `null` in a NOT NULL column inserts nothing |
| Store.DeleteWhereExact | TFS/database.py:203-206 | the DELETE removes every row of that user and track and keeps every other row as often as it occurred |
| Store.DeleteWhereIdempotent | TFS/database.py:203-206 | deleting twice is deleting once |
| Store.DeleteWhereAppend | TFS/database.py:203-206 | the DELETE treats an appended row on its own |
| Store.RemoveUndoesSave | TFS/database.py:197-212 | removing a track takes back its last save |
| Store.RowsOfExact | TFS/database.py:262-268 | `WHERE user_id = ?` keeps exactly the user's rows, each as often as it occurs |
| Store.InsertDescKeepsOrder | TFS/database.py:265 | inserting into a newest-first sequence keeps it newest first |
| Store.SortDesc | TFS/database.py:265 | `ORDER BY … DESC` yields a newest-first permutation of the rows (the hidden table's at TFS/database.py:240 likewise) |
| Store.Database.constructor | TFS/database.py:18-78 | a fresh store has three empty tables and satisfies the uniqueness invariant |
| Store.Database.CreateUser | TFS/database.py:80-120 | on a clash the tables stay and the error is returned; otherwise exactly one user is appended under the next id with the hashed password, the invariant is kept, and that user then verifies |
| Store.Database.VerifyUser | TFS/database.py:122-176 | the method answers what VerifyOn states for the stored users: `user_not_found` exactly when the lookup fails, otherwise the found user or `invalid_password` |
| Store.Database.SaveSong | TFS/database.py:178-195 | True appends exactly the row read from the body; False and an exception leave the table as it was; the other tables are untouched |
| Store.Database.HideSong | TFS/database.py:282-300 | the same insert into `hidden_songs` |
| Store.Database.RemoveSong | TFS/database.py:197-212 | returns True, and `saved_songs` becomes the DELETE of that user's rows of the track |
| Store.Database.UnhideSong | TFS/database.py:214-229 | returns True, and `hidden_songs` becomes the DELETE of that user's rows of the track |
| Store.Database.GetLikedSongs | TFS/database.py:256-280 | exactly the user's liked rows, newest first, each with `spotify_id` equal to `track_id` |
| Store.Database.GetHiddenSongs | TFS/database.py:231-254 | exactly the user's hidden rows, newest first, each with `spotify_id` equal to `id` |
| Server.CheckLogin | TFS/server.py:108-113 | `logged_in` is true exactly when the session has a user |
| Server.LoginReply | TFS/server.py:161-172 | as written, 200 with `success` and "Login successful" exactly for a verified user; every other answer is 500 with the text `'id'` |
| Server.LoginReplyIntended | TFS/server.py:166-167 | as intended, a failed check is answered 401 "Invalid credentials"; a verified user still gets 200 with `success` and "Login successful" |
| Server.Login | TFS/server.py:154-172 | a body without both keys gets 400 and keeps the session; otherwise the reply is `LoginReply` of the check, and the session becomes the user exactly when verified |
| Server.LoginIntended | TFS/server.py:154-172 | the same as `Login`, with the intended 401 |
| Server.Logout | TFS/server.py:174-177 | logout always empties the session and answers 200 with `success` and "Logout successful" |
| Server.LoginSetsSession | TFS/server.py:161-165 | a 200 login logs the session in; any other reply leaves the session as it was |
| Server.LogoutIdempotent | TFS/server.py:174-177 | logging out twice is logging out once, and the login check then says no |
| Server.FailedLoginIs500 | TFS/server.py:161-172 | as written, no failed login is answered 401 |
| Server.WrongPasswordExample | TFS/server.py:161-172 | a wrong password for an existing user gives 500 `'id'` as written and 401 as intended |
| Server.MissingAmongKeys | TFS/server.py:123 | the comprehension keeps exactly the listed keys whose value is falsy, in the listed order (a subsequence of the list) |
| Server.MissingKeys | TFS/server.py:121-126 | the missing list holds exactly the required keys whose value is not a non-empty string, in the order username, password, email, firstname, lastname; it is empty exactly when all five are present |
| Server.Join | TFS/server.py:125 | joining nothing is empty, and joining one part is that part |
| Server.JoinSnoc | TFS/server.py:125 | joining one more part appends the separator and that part, which fixes the join of any number of parts |
| Server.TwoMissingKeys | TFS/server.py:122-124 | a body without an email and with an empty last name misses exactly the email and the last name, in that order |
| Server.MissingTwoExample | TFS/server.py:123-127 | a body without an email and with an empty last name gets 400 "Missing required fields: email, lastname" |
| Server.RegisterReply | TFS/server.py:139-148 | as written, every `create_user` answer is 200 with `success` true |
| Server.RegisterReplyIntended | TFS/server.py:139-148 | as intended, 200 exactly for a created user and 409 otherwise |
| Server.TakenUsernameIs200 | TFS/server.py:128-148 | a taken username gets 200 as written and 409 as intended |
| Server.App.Register | TFS/server.py:116-152 | a missing field gets 400 and changes nothing; a clash changes nothing; otherwise exactly the new user, with the hashed password and the body's fields, is appended under the next id; the reply is always 200 |
| Server.App.HandleLike | TFS/server.py:180-204 | without a session, 401 and no change; GET lists the liked songs; POST appends the body's row, or answers 500; DELETE removes the user's rows of the body's `track_id` |
| Server.App.HideSong | TFS/server.py:206-217 | without a session, 401; otherwise the body's row is appended to `hidden_songs`, or 500 with no change |
| Server.App.GetHiddenSongs | TFS/server.py:219-226 | without a session, 401; otherwise 200 with exactly the user's hidden songs, newest first |
| Server.App.UnhideSong | TFS/server.py:228-239 | without a session, 401; without `track_id`, 500 and no change; otherwise the user's rows of that track leave `hidden_songs` |
| Server.App.CheckLoginRoute | TFS/server.py:108-113 | the answer is CheckLogin's: 200, with `logged_in` exactly when the session has a user |
| Server.App.LoginRoute | TFS/server.py:154-172 | the session and the reply become those of `Login` |
| Server.App.LogoutRoute | TFS/server.py:174-177 | the session and the answer are Logout's: the session is emptied and the answer is 200 "Logout successful" |
| Flows.RegisterBodyMissing | TFS/server.py:121-122 | the server finds nothing missing in the page's body exactly when the five required fields are non-empty |
| Forms.BlockedReadsFiveFields | TFS/assets/js/app.js:555-556 | the page lets the form through exactly when the five required fields are non-empty |
| Flows.ClientAndServerRequireTheSameFields | TFS/assets/js/app.js:554-567 | the page stops before posting exactly when the server would answer 400 |
| Flows.ClientLoginPassesServerCheck | TFS/server.py:158-160 | credentials the page posts are never answered 400, and are answered 200 exactly when the store verifies them |
| Flows.RegisterAlert | TFS/assets/js/app.js:570-603 | a success flag shows "Registration successful! Please login."; an error reply shows the failure text of its error |
| Flows.TakenNameReportedAsSuccess | TFS/assets/js/app.js:572-585 | as written, a taken name is shown as a successful registration; as intended, success is shown exactly for a created user |
| Flows.LoginAlert | TFS/assets/js/app.js:513-535 | no alert exactly when the reply carries the success flag; otherwise the server's non-empty error text, else "Login failed. Please try again." |
| Flows.WrongPasswordAlert | TFS/assets/js/app.js:528-531 | as written, a refused login shows `'id'`; as intended, it shows "Invalid credentials" |
| Flows.SongBodySaves | TFS/database.py:183-186 | the body the page posts always yields a row with the page's song id |
| Flows.LikeThenUnlike | TFS/server.py:193-203 | a like followed by an unlike leaves no row of the song for the user and every other row as before |

## Left out

- Network, `fetch` and JSON parsing are out of scope. A handler's requests
  are parameters. A body that is not a JSON object is not modelled, and
  neither is a missing body, which Flask answers with 415 or `None`.
- JSON values other than `null` and strings (numbers, booleans, arrays) are
  not modelled.
- Timers (`setTimeout`, `requestAnimationFrame`, the 300 ms debounce and
  close delays) are collapsed. Interleavings, where a second event arrives
  before a delay has run, are not modelled.
- The page is reduced to the modals and the song lists. The following are
  not modelled:
  - HTML rendering beyond row ids and like buttons;
  - images, audio previews, the starfield (TFS/assets/js/starfield.js is
    not part of this model) and the country selector;
  - `checkLoginStatus`;
  - `showSongDetails`, the song cards and the recommendations view.
- TfsApp.HideSong, TfsApp.RemoveRowsIn, TfApp.HideSong (through
  Dom.FirstRow) and Dom.RenderedItems: song ids are taken to contain no
  `"`, `\`, `&` or `<`. The browser code puts them unescaped into a CSS
  selector (`[data-song-id="…"]`) and into the rendered HTML. With such
  characters the selector is invalid, so the hide throws and alerts after
  the server has already hidden the song, or it matches another value; a
  rendered row then carries a different id.
- Document order is the order of the lists, then the order of items within
  a list. Nested containers are not modelled.
- Dom.Page.UnhideSong, TfsApp.LikeSong and TfApp.LikeSong: a button outside
  a song row is not modelled. The caller must name a row (`RowAt`).
- `/api/search`, `/api/recommendations`, `/api/preview`, the Spotify token
  and TF/server.py are not part of this model.
- Store.GeneratePasswordHash: werkzeug's hash is modelled as collision-free
  (a salt and the password). The real hash is only checked, not inverted.
- Forms.ScheduledQuery and Forms.CountSatisfied: lengths count Unicode
  scalar values, while JavaScript's `.length` and `/.{8,}/` count UTF-16
  code units. A character outside the Basic Multilingual Plane (an emoji)
  counts 1 here and 2 in the browser, so a one-emoji query is not
  scheduled here, and "Aa1!" plus two emoji does not meet the length
  criterion here.
- RegisterFailureMessage: `errorMessages[data.error]` also finds the
  members every JavaScript object inherits, so an error code such as
  "constructor" or "__proto__" shows that member's text in the browser.
  The model shows the code itself. No reply of the TFS server carries such
  a code.
- Text.Lower: Python's `.lower()` in `create_user` folds Unicode, while
  SQLite's `LOWER` folds ASCII only. Both are modelled as ASCII folding.
- Store.FindUser: `fetchone` without `ORDER BY` is taken to return the
  first matching row in insertion order.
- Store.SortDesc: SQL leaves the order of rows with equal timestamps open.
  The model keeps table order, and the contract only says newest first and
  a permutation.
- SQLite errors other than a NOT NULL violation are not modelled:
  - Store.Database.RemoveSong and Store.Database.UnhideSong always return
    True, so the 500 "Failed to unlike song" and "Failed to unhide song"
    branches are not reachable in the model;
  - the `database_error` and `unexpected_error` results of `create_user`
    cannot arise with string arguments and are not produced.
- Store.Database.CreateUser: the transaction and connection handling
  (`with conn`, `close`) are not modelled. Each call is atomic.
- Server.App.Register: `logging` is not modelled, and neither is the
  `except` branch that answers 500 when the body is missing or is not a
  JSON object (`create_user` catches its own exceptions).
- The TF browser script's login and register submit handlers call
  TF/server.py, which is not part of this model. Only their form checks
  (Forms.MissingFields, Forms.RegisterButtonEnabled) are modelled.

## Findings

| source | as written | input that shows it | evidently intended | confidence | as-written member | corrected member |
|---|---|---|---|---|---|---|
| TFS/server.py:139-148 | `if user_id:` tests the dict `create_user` returns, which is never empty, so a taken username or email is answered 200 with `success: true`, and the page shows "Registration successful! Please login." | registering "ann" twice | 409 with the error text when `create_user` reports a clash | high (not executed) | Server.RegisterReply, Server.TakenUsernameIs200, Flows.TakenNameReportedAsSuccess | Server.RegisterReplyIntended |
| TFS/server.py:161-172 | `if user:` tests the dict `verify_user` returns, which is never empty; `user['id']` then raises `KeyError` on an error dict, so a wrong password or unknown user gets 500 with the text `'id'`, and the page shows `'id'` | user "ann" with password "Secret1!" logging in with "nope" | 401 "Invalid credentials" | high (not executed) | Server.LoginReply, Server.Login, Server.FailedLoginIs500, Server.WrongPasswordExample, Flows.WrongPasswordAlert | Server.LoginReplyIntended, Server.LoginIntended |
| TFS/assets/js/app.js:283-296 | `element.closest('.songs-list')` runs after `element.remove()`, on a detached element, so it always finds nothing and no placeholder is ever put in | hiding the only song of the open liked list leaves the list blank | the emptied liked or hidden list shows its placeholder | high (not executed) | TfsApp.HideSong, TfsApp.HideLeavesLikedListBlank | TfsApp.HideIntended, TfsApp.HideIntendedProperties |
