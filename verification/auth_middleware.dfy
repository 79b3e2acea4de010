/** The request gate every protected route runs first: take the token from
    the Authorization header, look its session up and compare the session's
    expiry with the clock. The scheme word before the token (the "Bearer" of
    section 2.1 of RFC 6750) is never looked at. */
module AuthMiddleware {
  import opened Common

  const NoToken := "Unauthorized: No token provided"
  const InvalidOrExpired := "Unauthorized: Invalid or expired token"

  /** A session row of the relational generation; `expiresAt` is a clock
      reading, `userId` names the row `include: { user: true }` attaches. */
  datatype GateSession = GateSession(token: string, userId: int, expiresAt: int)

  /** What the gate does: answer 401 itself, or call `next` once with the
      session's user attached to the request. */
  datatype Gate = Rejected(status: nat, message: string) | Next(sessionUser: int)

  function SpaceIndex(s: string): Option<nat>
  {
    FirstIndex(s, (c: char) => c == ' ')
  }

  /** `s.split(" ")`: the maximal space-free pieces between single spaces. */
  function Split(s: string): (r: seq<string>)
    ensures |r| >= 1
    ensures forall i :: 0 <= i < |r| ==> ' ' !in r[i]
    decreases |s|
  {
    match SpaceIndex(s)
    case None => [s]
    case Some(k) => [s[..k]] + Split(s[k + 1..])
  }

  /** Pieces joined back with single spaces. */
  function Join(parts: seq<string>): string
    requires |parts| >= 1
  {
    if |parts| == 1 then parts[0] else parts[0] + " " + Join(parts[1..])
  }

  /** Splitting loses nothing: joining the pieces gives the header back. */
  lemma {:induction false} JoinSplit(s: string)
    ensures Join(Split(s)) == s
    decreases |s|
  {
    match SpaceIndex(s)
    case None =>
    case Some(k) =>
      JoinSplit(s[k + 1..]);
      assert Split(s)[1..] == Split(s[k + 1..]);
      assert s == s[..k] + " " + s[k + 1..];
  }

  /** Splitting pieces that carry no space, joined with spaces, gives them back. */
  lemma {:induction false} SplitJoin(parts: seq<string>)
    requires |parts| >= 1
    requires forall i :: 0 <= i < |parts| ==> ' ' !in parts[i]
    ensures Split(Join(parts)) == parts
    decreases |parts|
  {
    var s := Join(parts);
    if |parts| == 1 {
      NoSpaceNoIndex(parts[0]);
    } else {
      var rest := Join(parts[1..]);
      assert s == parts[0] + " " + rest;
      NoSpaceNoIndex(parts[0]);
      FirstSpaceAfter(parts[0], rest);
      assert s[|parts[0]| + 1..] == rest;
      assert s[..|parts[0]|] == parts[0];
      SplitJoin(parts[1..]);
    }
  }

  lemma NoSpaceNoIndex(s: string)
    requires ' ' !in s
    ensures SpaceIndex(s).None?
  {
  }

  lemma FirstSpaceAfter(a: string, b: string)
    requires ' ' !in a
    ensures SpaceIndex(a + " " + b) == Some(|a|)
  {
    var s := a + " " + b;
    var r := SpaceIndex(s);
    assert s[|a|] == ' ';
    assert r.Some?;
    assert forall j :: 0 <= j < |a| ==> s[j] == a[j];
  }

  /** `authorization?.split(" ")[1]`: the second piece of the header, or
      None when the header is missing or the token is empty or absent. */
  function TokenOf(header: Option<string>): (r: Option<string>)
    ensures r.Some? ==> header.Some? && |Split(header.value)| >= 2 && r.value == Split(header.value)[1] && r.value != ""
    ensures r.None? <==> header.None? || |Split(header.value)| < 2 || Split(header.value)[1] == ""
  {
    match header
    case None => None
    case Some(h) =>
      var parts := Split(h);
      if |parts| < 2 || parts[1] == "" then None else Some(parts[1])
  }

  /** Whatever the scheme word, "scheme token" yields the token; a header
      with no space in it yields none. */
  lemma TokenIgnoresScheme(scheme: string, token: string)
    requires ' ' !in scheme && ' ' !in token && token != ""
    ensures TokenOf(Some(scheme + " " + token)) == Some(token)
    ensures TokenOf(Some(scheme)) == None
  {
    assert scheme + " " + token == Join([scheme, token]);
    SplitJoin([scheme, token]);
    assert scheme == Join([scheme]);
    SplitJoin([scheme]);
  }

  function TokenIs(token: string): GateSession -> bool {
    (s: GateSession) => s.token == token
  }

  /** The gate. No token: 401 "No token provided". No session with that
      token, or one that expired strictly before `now`: 401 "Invalid or
      expired token". Otherwise `next` with the session's user. */
  function Authenticate(header: Option<string>, sessions: seq<GateSession>, now: int): (g: Gate)
    ensures TokenOf(header).None? <==> g == Rejected(401, NoToken)
    ensures g.Rejected? ==> g.status == 401
    ensures g == Rejected(401, InvalidOrExpired) <==>
      && TokenOf(header).Some?
      && var found := Find(sessions, TokenIs(TokenOf(header).value));
         found.None? || found.value.expiresAt < now
    ensures g.Next? ==>
      exists s :: s in sessions && s.token == TokenOf(header).value && now <= s.expiresAt && g.sessionUser == s.userId
  {
    match TokenOf(header)
    case None => Rejected(401, NoToken)
    case Some(token) =>
      match Find(sessions, TokenIs(token))
      case None => Rejected(401, InvalidOrExpired)
      case Some(session) =>
        if session.expiresAt < now then Rejected(401, InvalidOrExpired)
        else Next(session.userId)
  }

  /** With unique tokens the outcome depends on that one session: rejected
      when the session is missing or expired, passed otherwise; a session
      expiring exactly now still passes. */
  lemma AuthenticateUniqueTokens(header: Option<string>, sessions: seq<GateSession>, now: int, s: GateSession)
    requires forall i, j :: 0 <= i < j < |sessions| ==> sessions[i].token != sessions[j].token
    requires TokenOf(header) == Some(s.token) && s in sessions
    ensures Authenticate(header, sessions, now) == if s.expiresAt < now then Rejected(401, InvalidOrExpired) else Next(s.userId)
  {
    var f := Find(sessions, TokenIs(s.token)).value;
    var i :| 0 <= i < |sessions| && sessions[i] == f;
    var j :| 0 <= j < |sessions| && sessions[j] == s;
    assert i == j;
  }

  /** A well-formed "scheme token" header whose token has a live session passes. */
  lemma AuthenticateBearer(scheme: string, sessions: seq<GateSession>, now: int, s: GateSession)
    requires ' ' !in scheme && ' ' !in s.token && s.token != ""
    requires forall i, j :: 0 <= i < j < |sessions| ==> sessions[i].token != sessions[j].token
    requires s in sessions && now <= s.expiresAt
    ensures Authenticate(Some(scheme + " " + s.token), sessions, now) == Next(s.userId)
  {
    TokenIgnoresScheme(scheme, s.token);
    AuthenticateUniqueTokens(Some(scheme + " " + s.token), sessions, now, s);
  }
}
