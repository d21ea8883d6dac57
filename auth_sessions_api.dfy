/**
 * The login route (`POST auth_sessions`) and the refresh route
 * (`POST auth_sessions/refresh`). Login resolves the actor by handle or by
 * primary property content, checks the secret, then either checks a
 * supplied link id or relinks the installation, and opens a session.
 * Refresh copies an existing session under a new refresh token.
 */
module AuthSessionsApi {
  import opened Common
  import opened Text
  import opened Api
  import opened Installations
  import opened Actors
  import opened ActorProperties
  import opened AuthSessions

  /** The login request body. */
  datatype CreateAuthSession = CreateAuthSession(unique: string, secret: string, capChat: bool, ioid: Option<Uuid>)

  /** The data and hints of a successful login. */
  datatype LoginResult = LoginResult(session: AuthSession, properties: seq<ActorProperty>, actor: Actor)

  /** The length of a refresh token: 64 random bytes in base64. */
  const RefreshTokenLength := 88

  const KeyRefreshToken := "X-Refresh-Token"

  /**
   * Actor resolution: the undeleted actor holding the handle; failing
   * that, the owner of an undeleted primary property with that content.
   * A property without owner, or an owner id with no actor, is a null
   * dereference.
   */
  function ResolveActor(actors: ActorsService, props: ActorPropertiesService, unique: string): (r: Result<Actor, Failure>)
    reads actors, props
    ensures actors.GetByHandle(unique).Some? ==> r == Ok(actors.GetByHandle(unique).value)
    ensures r.Ok? ==> r.value in actors.actors
    ensures r == Err(Validation(Code.Reference, ["unique"])) <==>
              actors.GetByHandle(unique).None? && props.GetPrimaryByContent(unique).None?
    ensures actors.GetByHandle(unique).None? && props.GetPrimaryByContent(unique).Some? ==>
              var owner := props.GetPrimaryByContent(unique).value.actorId;
              if owner.Some? && actors.Get(owner.value).Some? then r == Ok(actors.Get(owner.value).value)
              else r.Err? && r.error.OtherThrowable?
  {
    match actors.GetByHandle(unique)
    case Some(a) => Ok(a)
    case None =>
      match props.GetPrimaryByContent(unique)
      case None => Err(Validation(Code.Reference, ["unique"]))
      case Some(p) =>
        if p.actorId.None? then Err(OtherThrowable("NullPointerException"))
        else match actors.Get(p.actorId.value)
          case None => Err(OtherThrowable("NullPointerException"))
          case Some(a) => Ok(a)
  }

  /**
   * The checks before any write: the actor resolves, the sanitised secret
   * equals its stored secret (else Forbidden on "secret"), and a secret
   * update records that secret (else Internal).
   */
  function Authenticate(actors: ActorsService, props: ActorPropertiesService, req: CreateAuthSession)
    : (r: Result<(Actor, SecretUpdate), Failure>)
    reads actors, props
    ensures var res := ResolveActor(actors, props, SanitizeUnique(req.unique));
            && (res.Err? ==> r == Err(res.error))
            && (res.Ok? && res.value.secret != SanitizeSecret(req.secret) ==>
                  r == Err(Validation(Code.Forbidden, ["secret"])))
            && (res.Ok? && res.value.secret == SanitizeSecret(req.secret) ==>
                  match actors.GetLatestSecretUpdate(res.value.id, res.value.secret)
                  case None => r == Err(ValidationCode(Code.Internal))
                  case Some(u) => r == Ok((res.value, u)) && u.actorId == res.value.id && u.secret == res.value.secret)
  {
    var res := ResolveActor(actors, props, SanitizeUnique(req.unique));
    if res.Err? then Err(res.error)
    else if res.value.secret != SanitizeSecret(req.secret) then Err(Validation(Code.Forbidden, ["secret"]))
    else match actors.GetLatestSecretUpdate(res.value.id, res.value.secret)
      case None => Err(ValidationCode(Code.Internal))
      case Some(u) => Ok((res.value, u))
  }

  /**
   * The link step of login. A supplied link id must name a known link
   * (else 422) owned by the actor (else 403), and nothing changes. Without
   * one, every link of (actor, installation) is stamped deleted and one
   * fresh link is created; the unique index always admits it, so the insert
   * fails only when the installation id names no installation (and then
   * there was no link to stamp either).
   */
  method BindLink(installations: InstallationsService, actorId: Uuid, installationId: Uuid, ioid: Option<Uuid>,
                  newLinkId: Uuid, now: Instant)
    returns (r: Result<Uuid, Reply<LoginResult>>)
    requires installations.Valid()
    requires newLinkId !in LinkIds(installations.links)
    modifies installations
    ensures installations.Valid()
    ensures installations.installations == old(installations.installations)
    ensures r.Err? ==> installations.links == old(installations.links)
    ensures ioid.Some? ==> installations.links == old(installations.links)
    ensures ioid.Some? ==> var link := old(installations.GetLink(ioid.value));
                           && (link.None? ==> r == Err(Bare(422)))
                           && (link.Some? && link.value.actorId != actorId ==> r == Err(Bare(403)))
                           && (link.Some? && link.value.actorId == actorId ==> r == Ok(ioid.value))
    ensures ioid.None? ==> (r.Ok? <==> installationId in old(installations.installations))
    ensures ioid.None? && r.Err? ==> r.error.Thrown?
    ensures ioid.None? && r.Ok? ==>
              && r.value == newLinkId
              && installations.links == StampDeleted(old(installations.links), actorId, installationId, now)
                                        + [InstallationLink(newLinkId, installationId, actorId, now, None)]
  {
    if ioid.Some? {
      var link := installations.GetLink(ioid.value);
      if link.None? {
        return Err(Bare(422));
      }
      if link.value.actorId != actorId {
        return Err(Bare(403));
      }
      return Ok(ioid.value);
    }
    if installationId !in installations.installations {
      StampDeletedUnlinked(installations.links, actorId, installationId, now);
    }
    installations.DeleteLinks(actorId, installationId, now);
    RelinkAdmitted(old(installations.links), actorId, installationId, now);
    StampDeletedEffect(old(installations.links), actorId, installationId, now);
    var linked := installations.LinkInstallation(actorId, installationId, newLinkId, now);
    r := match linked
      case Ok(l) => Ok(l.id)
      case Err(e) => Err(Thrown(e));
  }

  /**
   * The last step of login: one session row for the actor, the
   * installation, the link and the secret update, handed back with an
   * access token for the actor on that link and the actor's properties.
   */
  method OpenSession(sessions: AuthSessionsService, props: ActorPropertiesService, actor: Actor, update: SecretUpdate,
                     installationId: Uuid, linkId: Uuid, newSessionId: Uuid, refreshToken: string, now: Instant)
    returns (res: LoginResult)
    requires sessions.Valid()
    requires newSessionId !in SessionIds(sessions.sessions)
    requires |refreshToken| == RefreshTokenLength
    modifies sessions
    ensures sessions.Valid()
    ensures sessions.sessions == old(sessions.sessions)
              + [SessionRow(newSessionId, actor.id, installationId, linkId, update.id, refreshToken, now, None)]
    ensures res.actor == actor && res.properties == props.List(actor.id)
    ensures res.session == AuthSession(newSessionId, actor.id, installationId, linkId, update.id, refreshToken,
                                       Some(AccessToken(actor.id, linkId, actor.handle)), now, None)
  {
    var created := sessions.Create(actor.id, installationId, linkId, update.id, refreshToken, newSessionId, now);
    var session := created.value.(accessToken := Some(AccessToken(actor.id, linkId, actor.handle)));
    var properties := props.List(actor.id);
    res := LoginResult(session, properties, actor);
  }

  /**
   * The login once the installation header and the credentials are
   * checked: bind the link (or refuse), then open the session for the
   * actor on it.
   */
  method Login(installations: InstallationsService, props: ActorPropertiesService, sessions: AuthSessionsService,
               actor: Actor, update: SecretUpdate, installationId: Uuid, ioid: Option<Uuid>,
               newLinkId: Uuid, newSessionId: Uuid, refreshToken: string, now: Instant)
    returns (r: Reply<LoginResult>)
    requires installations.Valid() && sessions.Valid()
    requires newLinkId !in LinkIds(installations.links)
    requires newSessionId !in SessionIds(sessions.sessions)
    requires |refreshToken| == RefreshTokenLength
    modifies installations, sessions
    ensures installations.Valid() && sessions.Valid()
    ensures installations.installations == old(installations.installations)
    ensures !r.Created? ==> installations.links == old(installations.links) && sessions.sessions == old(sessions.sessions)
    ensures ioid.Some? ==> var link := old(installations.GetLink(ioid.value));
                           && (link.None? ==> r == Bare(422))
                           && (link.Some? && link.value.actorId != actor.id ==> r == Bare(403))
                           && (link.Some? && link.value.actorId == actor.id ==> r.Created? && r.data.session.ioid == ioid.value)
    ensures ioid.None? ==>
              && (installationId !in old(installations.installations) ==> r.Thrown?)
              && (installationId in old(installations.installations) ==>
                    && r.Created? && r.data.session.ioid == newLinkId
                    && installations.links == StampDeleted(old(installations.links), actor.id, installationId, now)
                                              + [InstallationLink(newLinkId, installationId, actor.id, now, None)])
    ensures r.Created? ==>
              var s := r.data.session;
              && r.data.actor == actor
              && s.id == newSessionId && s.actorId == actor.id && s.installationId == installationId
              && s.secretUpdateId == update.id && s.refreshToken == refreshToken
              && s.accessToken == Some(AccessToken(actor.id, s.ioid, actor.handle))
              && sessions.sessions == old(sessions.sessions)
                   + [SessionRow(newSessionId, actor.id, installationId, s.ioid, update.id, refreshToken, now, None)]
              && r.data.properties == props.List(actor.id)
  {
    var bound := BindLink(installations, actor.id, installationId, ioid, newLinkId, now);
    if bound.Err? {
      return bound.error;
    }
    var res := OpenSession(sessions, props, actor, update, installationId, bound.value, newSessionId, refreshToken, now);
    r := Created(res);
  }

  /** `POST auth_sessions`. */
  method PostAuthSession(installations: InstallationsService, actors: ActorsService, props: ActorPropertiesService,
                         sessions: AuthSessionsService, headers: Headers, parseUuid: string -> Option<Uuid>,
                         req: CreateAuthSession, newLinkId: Uuid, newSessionId: Uuid, refreshToken: string,
                         now: Instant)
    returns (r: Reply<LoginResult>)
    requires installations.Valid() && sessions.Valid()
    requires newLinkId !in LinkIds(installations.links)
    requires newSessionId !in SessionIds(sessions.sessions)
    requires |refreshToken| == RefreshTokenLength
    modifies installations, sessions
    ensures installations.Valid() && sessions.Valid()
    ensures installations.installations == old(installations.installations)
    // a refused login changes nothing
    ensures !r.Created? ==> installations.links == old(installations.links) && sessions.sessions == old(sessions.sessions)
    ensures InstallationIdHeader(headers, parseUuid).Err? ==> r == Thrown(InstallationIdHeader(headers, parseUuid).error)
    ensures InstallationIdHeader(headers, parseUuid).Ok? && old(Authenticate(actors, props, req)).Err? ==>
              r == Thrown(old(Authenticate(actors, props, req)).error)
    // with a supplied link id: unknown is 422, foreign is 403, otherwise the session uses it
    ensures InstallationIdHeader(headers, parseUuid).Ok? && old(Authenticate(actors, props, req)).Ok? && req.ioid.Some? ==>
              var link := old(installations.GetLink(req.ioid.value));
              var actor := old(Authenticate(actors, props, req)).value.0;
              && (link.None? ==> r == Bare(422))
              && (link.Some? && link.value.actorId != actor.id ==> r == Bare(403))
              && (link.Some? && link.value.actorId == actor.id ==> r.Created? && r.data.session.ioid == req.ioid.value)
    // without one: an unknown installation makes the link insert throw; otherwise the pair's links are
    // stamped deleted, one fresh link is added, and the session uses it
    ensures InstallationIdHeader(headers, parseUuid).Ok? && old(Authenticate(actors, props, req)).Ok? && req.ioid.None? ==>
              var installationId := InstallationIdHeader(headers, parseUuid).value;
              var actor := old(Authenticate(actors, props, req)).value.0;
              && (installationId !in old(installations.installations) ==> r.Thrown?)
              && (installationId in old(installations.installations) ==>
                    && r.Created? && r.data.session.ioid == newLinkId
                    && installations.links == StampDeleted(old(installations.links), actor.id, installationId, now)
                                              + [InstallationLink(newLinkId, installationId, actor.id, now, None)])
    // a session is opened for the resolved actor, bound to the header's installation
    ensures r.Created? ==>
              && InstallationIdHeader(headers, parseUuid).Ok? && old(Authenticate(actors, props, req)).Ok?
              && var installationId := InstallationIdHeader(headers, parseUuid).value;
                 var actor := old(Authenticate(actors, props, req)).value.0;
                 var update := old(Authenticate(actors, props, req)).value.1;
                 var s := r.data.session;
                 && r.data.actor == actor
                 && s.id == newSessionId && s.actorId == actor.id && s.installationId == installationId
                 && s.secretUpdateId == update.id && s.refreshToken == refreshToken
                 && s.accessToken == Some(AccessToken(actor.id, s.ioid, actor.handle))
                 && sessions.sessions == old(sessions.sessions)
                      + [SessionRow(newSessionId, actor.id, installationId, s.ioid, update.id, refreshToken, now, None)]
                 && r.data.properties == props.List(actor.id)
  {
    var header := InstallationIdHeader(headers, parseUuid);
    if header.Err? {
      return Thrown(header.error);
    }
    var installationId := header.value;
    var auth := Authenticate(actors, props, req);
    if auth.Err? {
      return Thrown(auth.error);
    }
    var (a, secretUpdate) := auth.value;
    r := Login(installations, props, sessions, a, secretUpdate, installationId, req.ioid, newLinkId, newSessionId,
               refreshToken, now);
  }

  /**
   * The refresh header's shape: split on ' ' it must give exactly two
   * pieces, the first being "Bearer"; the second is the refresh token.
   */
  function ParseRefreshHeader(auth: string): (r: Option<string>)
  {
    var tokens := SplitOn(auth, {' '});
    if |tokens| != 2 || tokens[0] != "Bearer" then None else Some(tokens[1])
  }

  /** The header is accepted exactly when it reads "Bearer " followed by a token without spaces. */
  lemma ParseRefreshHeaderIff(auth: string, token: string)
    ensures ParseRefreshHeader(auth) == Some(token) <==> auth == "Bearer " + token && ' ' !in token
  {
    if auth == "Bearer " + token && ' ' !in token {
      assert auth == "Bearer" + [' '] + token;
      SplitTwo("Bearer", token, {' '}, ' ');
    }
    if ParseRefreshHeader(auth) == Some(token) {
      SplitTwoIff(auth, ' ');
    }
  }

  /** `POST auth_sessions/refresh`. */
  method PostRefresh(actors: ActorsService, sessions: AuthSessionsService, headers: Headers,
                     parseUuid: string -> Option<Uuid>, newSessionId: Uuid, refreshToken: string, now: Instant)
    returns (r: Reply<AuthSession>)
    requires actors.Valid() && sessions.Valid()
    requires newSessionId !in SessionIds(sessions.sessions)
    requires |refreshToken| == RefreshTokenLength
    modifies sessions
    ensures sessions.Valid()
    ensures !r.Created? ==> sessions.sessions == old(sessions.sessions)
    ensures InstallationIdHeader(headers, parseUuid).Err? ==> r == Thrown(InstallationIdHeader(headers, parseUuid).error)
    ensures InstallationIdHeader(headers, parseUuid).Ok? && HeaderOrFail(headers, KeyRefreshToken).Err? ==>
              r == Thrown(HeaderOrFail(headers, KeyRefreshToken).error)
    ensures InstallationIdHeader(headers, parseUuid).Ok? && HeaderOrFail(headers, KeyRefreshToken).Ok? ==>
              var installationId := InstallationIdHeader(headers, parseUuid).value;
              var token := ParseRefreshHeader(HeaderOrFail(headers, KeyRefreshToken).value);
              && (token.None? ==> r == Bare(400))
              && (token.Some? && old(sessions.GetByRefreshToken(token.value, installationId)).None? ==> r == Bare(401))
              && (token.Some? && old(sessions.GetByRefreshToken(token.value, installationId)).Some? ==>
                    var curr := old(sessions.GetByRefreshToken(token.value, installationId)).value;
                    && (actors.Get(curr.actorId).None? ==> r == Bare(422))
                    && (actors.Get(curr.actorId).Some? ==>
                          var actor := actors.Get(curr.actorId).value;
                          // the copy keeps every binding of the current session; only the tokens are new
                          && r == Created(AuthSession(newSessionId, curr.actorId, curr.installationId, curr.ioid,
                                                      curr.secretUpdateId, refreshToken,
                                                      Some(AccessToken(actor.id, curr.ioid, actor.handle)), now, None))
                          && sessions.sessions == old(sessions.sessions)
                               + [SessionRow(newSessionId, curr.actorId, curr.installationId, curr.ioid,
                                             curr.secretUpdateId, refreshToken, now, None)]))
  {
    var header := InstallationIdHeader(headers, parseUuid);
    if header.Err? {
      return Thrown(header.error);
    }
    var installationId := header.value;
    var auth := HeaderOrFail(headers, KeyRefreshToken);
    if auth.Err? {
      return Thrown(auth.error);
    }
    var tokens := SplitOn(auth.value, {' '});
    if |tokens| != 2 || tokens[0] != "Bearer" {
      return Bare(400);
    }
    var currRefreshToken := tokens[1];
    var curr := sessions.GetByRefreshToken(currRefreshToken, installationId);
    if curr.None? {
      return Bare(401);
    }
    // the installation check that follows in the route can never fire: the lookup matched the installation
    assert curr.value.installationId == installationId;
    var actor := actors.Get(curr.value.actorId);
    if actor.None? {
      return Bare(422);
    }
    var created := sessions.Create(curr.value.actorId, curr.value.installationId, curr.value.ioid,
                                   curr.value.secretUpdateId, refreshToken, newSessionId, now);
    r := Created(created.value.(accessToken := Some(AccessToken(actor.value.id, curr.value.ioid, actor.value.handle))));
  }
}
