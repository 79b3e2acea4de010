/** The user routes: account creation, the per-user ranking report for one
    episode, profile update, login and logout. Password hashing and checking
    are the bcrypt library's and enter as parameters. */
module UserRoutes {
  import opened Common
  import opened Models

  const UserNotFound := "User not found"
  const InvalidPassword := "Invalid password"
  const SessionNotFound := "Session not found"
  const LoggedOut := "Logged out successfully"

  /** A user as the report lists it, with that user's rankings attached. */
  datatype UserRankings = UserRankings(user: User, rankings: seq<Ranking>)

  /** POST /users: store the user with the hashed password. */
  function CreateUser(db: Db, firstName: string, lastName: string, email: string, password: string,
                      hash: string -> string, newId: UserId): (o: Outcome<User>)
    ensures o.response.Ok? && o.response.status == 200
    ensures o.response.value == User(newId, firstName, lastName, email, hash(password))
    ensures o.db == db.(users := db.users + [o.response.value])
  {
    var user := User(newId, firstName, lastName, email, hash(password));
    Outcome(db.(users := db.users + [user]), Ok(200, user))
  }

  function EntriesFor(users: seq<User>, rankings: seq<Ranking>, number: int): (r: seq<UserRankings>)
    ensures |r| == |users|
    ensures forall i :: 0 <= i < |users| ==>
      r[i].user == users[i] && r[i].rankings == UserEpisodeRankings(rankings, users[i].id, number)
  {
    if |users| == 0 then []
    else
      var head := UserRankings(users[0], UserEpisodeRankings(rankings, users[0].id, number));
      [head] + EntriesFor(users[1..], rankings, number)
  }

  /** GET /users/usersWithRankings/:episodeId: every user in store order,
      each with their rankings for that episode's number in ascending rank
      order. The episode's number is read inside the loop and outside any
      try block: an unknown episode leaves the request unanswered, unless
      there is no user at all and the loop body never runs. */
  function UsersWithRankings(db: Db, episodeId: EpisodeId): (r: Response<seq<UserRankings>>)
    ensures r.Unhandled? <==> |db.users| > 0 && EpisodeById(db.episodes, episodeId).None?
    ensures !r.Err?
    ensures r.Ok? ==> r.status == 200 && |r.value| == |db.users|
    ensures r.Ok? ==> forall i :: 0 <= i < |db.users| ==> r.value[i].user == db.users[i]
    ensures r.Ok? ==> forall i :: 0 <= i < |db.users| ==> Sorted(r.value[i].rankings, ByRank)
    ensures r.Ok? ==> forall i :: 0 <= i < |db.users| ==>
      var number := EpisodeById(db.episodes, episodeId).value.number;
      forall x :: x in r.value[i].rankings <==>
        x in db.rankings && x.userId == db.users[i].id && x.episode == number
  {
    if |db.users| == 0 then Ok(200, [])
    else
      match EpisodeById(db.episodes, episodeId)
      case None => Unhandled
      case Some(episode) => Ok(200, EntriesFor(db.users, db.rankings, episode.number))
  }

  /** Each report entry holds exactly that user's rankings with the episode's
      number, with their multiplicities. */
  lemma UsersWithRankingsComplete(db: Db, episodeId: EpisodeId, i: nat)
    requires UsersWithRankings(db, episodeId).Ok? && i < |db.users|
    requires EpisodeById(db.episodes, episodeId).Some?
    ensures var number := EpisodeById(db.episodes, episodeId).value.number;
      multiset(UsersWithRankings(db, episodeId).value[i].rankings)
        == multiset(Filter(db.rankings, OfUserEpisode(db.users[i].id, number)))
  {
  }

  function Patch(u: User, firstName: Option<string>, lastName: Option<string>, email: Option<string>): User {
    u.(firstName := if firstName.Some? then firstName.value else u.firstName,
       lastName := if lastName.Some? then lastName.value else u.lastName,
       email := if email.Some? then email.value else u.email)
  }

  /** PATCH /users: set the first name, last name and email of the first
      user with the given id; a field missing from the query is left as it
      was (undefined keys are stripped from the update). The reply carries
      the document as it was BEFORE the update, or null. */
  function PatchUser(db: Db, id: UserId, firstName: Option<string>, lastName: Option<string>,
                     email: Option<string>): (o: Outcome<Option<User>>)
    ensures o.response.Ok? && o.response.status == 200
    ensures o.response.value == UserById(db.users, id)
    ensures o.response.value.None? ==> o.db == db
    ensures o.db.(users := db.users) == db && |o.db.users| == |db.users|
    ensures forall j :: 0 <= j < |db.users| ==>
      && o.db.users[j].id == db.users[j].id
      && o.db.users[j].password == db.users[j].password
      && (o.db.users[j] == db.users[j]
          || (db.users[j].id == id
              && (firstName.Some? ==> o.db.users[j].firstName == firstName.value)
              && (lastName.Some? ==> o.db.users[j].lastName == lastName.value)
              && (email.Some? ==> o.db.users[j].email == email.value)))
    ensures forall j :: 0 <= j < |db.users| ==>
      (firstName.None? ==> o.db.users[j].firstName == db.users[j].firstName)
      && (lastName.None? ==> o.db.users[j].lastName == db.users[j].lastName)
      && (email.None? ==> o.db.users[j].email == db.users[j].email)
    ensures forall k :: 0 <= k < |db.users| && db.users[k].id == id && (forall i :: 0 <= i < k ==> db.users[i].id != id) ==>
      && (firstName.Some? ==> o.db.users[k].firstName == firstName.value)
      && (lastName.Some? ==> o.db.users[k].lastName == lastName.value)
      && (email.Some? ==> o.db.users[k].email == email.value)
      && (forall j :: 0 <= j < |db.users| && j != k ==> o.db.users[j] == db.users[j])
  {
    match FirstIndex(db.users, UserIs(id))
    case None =>
      assert UserById(db.users, id).None?;
      Outcome(db, Ok(200, None))
    case Some(k) =>
      var before := db.users[k];
      Outcome(db.(users := db.users[k := Patch(before, firstName, lastName, email)]), Ok(200, Some(before)))
  }

  /** Looking the user up after a patch finds the user as patched: the
      supplied fields hold their new values, the others, the id and the
      password hash are as they were. */
  lemma PatchThenFind(db: Db, id: UserId, firstName: Option<string>, lastName: Option<string>,
                      email: Option<string>)
    requires UserById(db.users, id).Some?
    ensures var before := UserById(db.users, id).value;
      var after := UserById(PatchUser(db, id, firstName, lastName, email).db.users, id);
      && after.Some? && after.value.id == id && after.value.password == before.password
      && after.value.firstName == (if firstName.Some? then firstName.value else before.firstName)
      && after.value.lastName == (if lastName.Some? then lastName.value else before.lastName)
      && after.value.email == (if email.Some? then email.value else before.email)
  {
  }

  /** The same patch sent twice leaves the store as one patch did. */
  lemma PatchUserIdempotent(db: Db, id: UserId, firstName: Option<string>, lastName: Option<string>,
                            email: Option<string>)
    ensures var once := PatchUser(db, id, firstName, lastName, email).db;
      PatchUser(once, id, firstName, lastName, email).db == once
  {
  }

  /** The reply of a successful login: the user's public fields and the new
      session's token and expiry. */
  datatype LoginReply = LoginReply(id: UserId, firstName: string, lastName: string, email: string,
                                   sessionToken: string, expiresAt: int)

  function EmailIs(email: string): User -> bool {
    (u: User) => u.email == email
  }

  /** POST /login: the first user with the email, a password check through
      `matches` (bcrypt's compare, plain text against the stored hash), and
      on success one new session for that user with the generated token. */
  function Login(db: Db, email: string, password: string, matches: (string, string) -> bool,
                 newToken: string, expiresAt: int): (o: Outcome<LoginReply>)
    ensures (forall u :: u in db.users ==> u.email != email) <==> o.response == Err(401, UserNotFound)
    ensures o.response.Err? ==> o.db == db
    ensures o.response == Err(401, InvalidPassword) <==>
      Find(db.users, EmailIs(email)).Some? && !matches(password, Find(db.users, EmailIs(email)).value.password)
    ensures o.response.Ok? ==>
      var user := Find(db.users, EmailIs(email)).value;
      && o.response.status == 200
      && user in db.users && user.email == email && matches(password, user.password)
      && o.response.value == LoginReply(user.id, user.firstName, user.lastName, user.email, newToken, expiresAt)
      && o.db == db.(sessions := db.sessions + [Session(user.id, newToken, expiresAt)])
    ensures !o.response.Unhandled?
  {
    match Find(db.users, EmailIs(email))
    case None => Outcome(db, Err(401, UserNotFound))
    case Some(user) =>
      if !matches(password, user.password) then Outcome(db, Err(401, InvalidPassword))
      else
        var session := Session(user.id, newToken, expiresAt);
        Outcome(db.(sessions := db.sessions + [session]),
                Ok(200, LoginReply(user.id, user.firstName, user.lastName, user.email, newToken, expiresAt)))
  }

  /** POST /logout: remove the first session holding the token; an unknown
      token is a 404 and changes nothing. */
  function Logout(db: Db, token: string): (o: Outcome<string>)
    ensures (forall s :: s in db.sessions ==> s.token != token) <==> o.response.Err?
    ensures o.response.Err? ==> o.db == db && o.response == Err(404, SessionNotFound)
    ensures o.response.Ok? ==>
      && o.response == Ok(200, LoggedOut)
      && o.db.(sessions := db.sessions) == db
      && |o.db.sessions| == |db.sessions| - 1
      && exists s :: s in db.sessions && s.token == token && multiset(o.db.sessions) + multiset{s} == multiset(db.sessions)
    ensures forall k :: 0 <= k < |db.sessions| && db.sessions[k].token == token && (forall i :: 0 <= i < k ==> db.sessions[i].token != token) ==>
      && o.response.Ok?
      && |o.db.sessions| == |db.sessions| - 1
      && (forall j :: 0 <= j < k ==> o.db.sessions[j] == db.sessions[j])
      && (forall j :: k <= j < |o.db.sessions| ==> o.db.sessions[j] == db.sessions[j + 1])
  {
    match FirstIndex(db.sessions, HasToken(token))
    case None => Outcome(db, Err(404, SessionNotFound))
    case Some(k) => Outcome(db.(sessions := RemoveAt(db.sessions, k)), Ok(200, LoggedOut))
  }

  /** With unique tokens, logout keeps exactly the sessions with other tokens. */
  lemma LogoutExactlyOne(db: Db, token: string)
    requires forall i, j :: 0 <= i < j < |db.sessions| ==> db.sessions[i].token != db.sessions[j].token
    ensures forall s :: s in Logout(db, token).db.sessions <==> s in db.sessions && s.token != token
  {
    match FirstIndex(db.sessions, HasToken(token))
    case None =>
    case Some(k) =>
      var sessions := Logout(db, token).db.sessions;
      forall s | s in db.sessions && s.token != token ensures s in sessions {
        var j :| 0 <= j < |db.sessions| && db.sessions[j] == s;
        if j < k { assert sessions[j] == s; } else { assert sessions[j - 1] == s; }
      }
  }

  /** Logging out with the token a login just issued, when that token was not
      in use before, restores the sessions exactly. */
  lemma LoginThenLogout(db: Db, email: string, password: string, matches: (string, string) -> bool,
                        newToken: string, expiresAt: int)
    requires Login(db, email, password, matches, newToken, expiresAt).response.Ok?
    requires forall s :: s in db.sessions ==> s.token != newToken
    ensures Logout(Login(db, email, password, matches, newToken, expiresAt).db, newToken).db == db
  {
    var after := Login(db, email, password, matches, newToken, expiresAt).db;
    assert after.sessions[|db.sessions|].token == newToken;
    assert RemoveAt(after.sessions, |db.sessions|) == db.sessions;
  }

  /** A freshly created account can log in with its password, provided the
      check accepts a password against its own hash and the email is new. */
  lemma CreateThenLogin(db: Db, firstName: string, lastName: string, email: string, password: string,
                        hash: string -> string, matches: (string, string) -> bool, newId: UserId,
                        newToken: string, expiresAt: int)
    requires matches(password, hash(password))
    requires forall u :: u in db.users ==> u.email != email
    ensures var created := CreateUser(db, firstName, lastName, email, password, hash, newId).db;
      Login(created, email, password, matches, newToken, expiresAt).response.Ok?
  {
    var created := CreateUser(db, firstName, lastName, email, password, hash, newId).db;
    var found := Find(created.users, EmailIs(email));
    assert found.Some? by {
      assert created.users[|db.users|].email == email;
    }
    assert found.value == created.users[|db.users|];
  }
}
