/** The authentication middleware (bearer token, identity check, profile lookup) and the admin guard. */
module Auth {
  import opened Domain
  import opened Strings
  import opened Db

  const BearerPrefix := "Bearer "
  const NoTokenError := "No token provided"
  const InvalidTokenError := "Invalid token"
  const ProfileNotFound := "User profile not found"
  const AdminRequired := "Admin access required"

  /** `header?.replace("Bearer ", "")`: absent when the header is, otherwise the header with
      its first "Bearer " removed. */
  function ExtractToken(header: Option<string>): (token: Option<string>)
    ensures token.Some? <==> header.Some?
  {
    match header
    case None => None
    case Some(h) => Some(ReplaceFirst(h, BearerPrefix, ""))
  }

  /** "Bearer <t>" yields exactly t. */
  lemma ExtractBearerToken(t: string)
    ensures ExtractToken(Some(BearerPrefix + t)) == Some(t)
  {
    var h := BearerPrefix + t;
    assert h[0..|BearerPrefix|] == BearerPrefix;
    assert FirstAt(h, BearerPrefix, 0);
    assert h[..0] + "" + h[|BearerPrefix|..] == t;
  }

  /** A header that never mentions "Bearer " is taken as the token itself. */
  lemma HeaderWithoutPrefixIsToken(h: string)
    requires forall j: nat :: !MatchesAt(h, BearerPrefix, j)
    ensures ExtractToken(Some(h)) == Some(h)
  {
  }

  /** Only the first "Bearer " goes; the text before it and after it is kept, including any
      later "Bearer ". */
  lemma ExtractKeepsSurroundingText(before: string, after: string)
    requires forall j: nat :: j < |before| ==> !MatchesAt(before + BearerPrefix, BearerPrefix, j)
    ensures ExtractToken(Some(before + BearerPrefix + after)) == Some(before + after)
  {
    ReplaceFirstAfter(before, BearerPrefix, after, "");
    assert before + "" + after == before + after;
  }

  /** The outcome of authMiddleware before `next` runs. Token verification by the identity
      provider is an oracle: `sessions` maps each token it accepts to the id of its user. */
  datatype AuthDecision = Authenticated(user: User) | Denied(status: nat, error: string)

  function Authenticate(header: Option<string>, sessions: map<string, UserId>, users: map<UserId, User>): (r: AuthDecision)
    ensures r == Denied(401, NoTokenError) <==> header.None? || ExtractToken(header) == Some("")
    ensures r == Denied(401, InvalidTokenError) <==>
      header.Some? && ExtractToken(header) != Some("") && ExtractToken(header).value !in sessions
    ensures r == Denied(404, ProfileNotFound) <==>
      header.Some? && ExtractToken(header) != Some("") && ExtractToken(header).value in sessions &&
      sessions[ExtractToken(header).value] !in users
    ensures r.Authenticated? <==>
      header.Some? && ExtractToken(header) != Some("") && ExtractToken(header).value in sessions &&
      sessions[ExtractToken(header).value] in users
    ensures r.Authenticated? ==> r.user == users[sessions[ExtractToken(header).value]]
  {
    match ExtractToken(header)
    case None => Denied(401, NoTokenError)
    case Some(token) =>
      if token == "" then Denied(401, NoTokenError)
      else if token !in sessions then Denied(401, InvalidTokenError)
      else if sessions[token] !in users then Denied(404, ProfileNotFound)
      else Authenticated(users[sessions[token]])
  }

  /** "Bearer " with nothing after it is refused before the identity provider is asked. */
  lemma BareBearerRefused(sessions: map<string, UserId>, users: map<UserId, User>)
    ensures Authenticate(Some(BearerPrefix), sessions, users) == Denied(401, NoTokenError)
  {
    ExtractBearerToken("");
    assert BearerPrefix + "" == BearerPrefix;
  }

  /** The request context: the user is set once authentication succeeds. */
  class RequestContext {
    var user: Option<User>

    constructor ()
      ensures user == None
    {
      user := None;
    }
  }

  /** Whether a middleware hands the request on to `next` or answers it. */
  datatype Flow = Next | Halt(status: nat, error: string)

  /** authMiddleware: sets the context's user and calls next only when authentication succeeds;
      the profile is looked up in the database's users table. */
  method AuthMiddleware(ctx: RequestContext, db: Database, header: Option<string>, sessions: map<string, UserId>)
    returns (flow: Flow)
    modifies ctx
    ensures Authenticate(header, sessions, db.users).Authenticated? ==>
      flow == Next && ctx.user == Some(Authenticate(header, sessions, db.users).user)
    ensures Authenticate(header, sessions, db.users).Denied? ==>
      flow == Halt(Authenticate(header, sessions, db.users).status, Authenticate(header, sessions, db.users).error) &&
      ctx.user == old(ctx.user)
  {
    var token := ExtractToken(header);
    if token.None? || token.value == "" {
      return Halt(401, NoTokenError);
    }
    if token.value !in sessions {
      return Halt(401, InvalidTokenError);
    }
    var userId := sessions[token.value];
    if userId !in db.users {
      return Halt(404, ProfileNotFound);
    }
    ctx.user := Some(db.users[userId]);
    flow := Next;
  }

  /** adminMiddleware over the context's user. */
  function AdminMiddleware(user: Option<User>): (flow: Flow)
    ensures flow == Next <==> user.Some? && user.value.isAdmin
    ensures flow != Next ==> flow == Halt(403, AdminRequired)
  {
    if user.None? || !user.value.isAdmin then Halt(403, AdminRequired) else Next
  }
}
