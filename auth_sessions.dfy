/**
 * Login sessions: each binds an actor, an installation, the installation
 * link the session speaks for (its ioid) and the secret update it was
 * opened with, and holds a refresh token. Sessions are only ever added.
 */
module AuthSessions {
  import opened Common
  import opened Api

  /**
   * The claims of a signed access token (`handle`, `actor_id`, `ioid`);
   * the signature and expiry are not modelled.
   */
  datatype AccessToken = AccessToken(actorId: Uuid, ioid: Uuid, handle: string)

  /** A stored session row. */
  datatype SessionRow = SessionRow(
    id: Uuid, actorId: Uuid, installationId: Uuid, ioid: Uuid, secretUpdateId: Uuid,
    refreshToken: string, createdAt: Instant, deletedAt: Option<Instant>)

  /** The session DTO; `accessToken` is filled in by the routes. */
  datatype AuthSession = AuthSession(
    id: Uuid, actorId: Uuid, installationId: Uuid, ioid: Uuid, secretUpdateId: Uuid,
    refreshToken: string, accessToken: Option<AccessToken>, createdAt: Instant, deletedAt: Option<Instant>)

  /** Varchar length of the refresh-token column. */
  const RefreshTokenColumn := 100

  /** `toDTO`: every column copied, and no access token. */
  function ToDTO(row: SessionRow): (s: AuthSession)
    ensures s.accessToken == None
    ensures s.id == row.id && s.actorId == row.actorId && s.installationId == row.installationId
    ensures s.ioid == row.ioid && s.secretUpdateId == row.secretUpdateId && s.refreshToken == row.refreshToken
    ensures s.createdAt == row.createdAt && s.deletedAt == row.deletedAt
  {
    AuthSession(row.id, row.actorId, row.installationId, row.ioid, row.secretUpdateId, row.refreshToken, None,
                row.createdAt, row.deletedAt)
  }

  /** The ids of the session table, in order. */
  function SessionIds(rows: seq<SessionRow>): (r: seq<Uuid>)
    ensures |r| == |rows|
  {
    seq(|rows|, i requires 0 <= i < |rows| => rows[i].id)
  }

  /** The session table. */
  class AuthSessionsService {
    var sessions: seq<SessionRow>

    /** Ids are unique and every refresh token fits its column. */
    ghost predicate Valid()
      reads this
    {
      && Distinct(SessionIds(sessions))
      && (forall s :: s in sessions ==> |s.refreshToken| <= RefreshTokenColumn)
    }

    constructor ()
      ensures Valid() && sessions == []
    {
      sessions := [];
    }

    /** `get`: the session with this id, deleted or not. */
    function Get(id: Uuid): (r: Option<AuthSession>)
      reads this
      ensures r.Some? ==> exists row :: row in sessions && row.id == id && r.value == ToDTO(row)
      ensures r.None? <==> forall row :: row in sessions ==> row.id != id
    {
      var found := First(sessions, (row: SessionRow) => row.id == id);
      if found.None? then None else Some(ToDTO(found.value))
    }

    /**
     * `getByRefreshToken`: a session only when both the refresh token and
     * the installation match; deletion stamps are not consulted.
     */
    function GetByRefreshToken(refreshToken: string, installationId: Uuid): (r: Option<AuthSession>)
      reads this
      ensures r.Some? ==> exists row :: row in sessions && r.value == ToDTO(row)
                            && row.refreshToken == refreshToken && row.installationId == installationId
      ensures r.None? <==> forall row :: row in sessions ==>
                             !(row.refreshToken == refreshToken && row.installationId == installationId)
    {
      var found := First(sessions, (row: SessionRow) => row.refreshToken == refreshToken && row.installationId == installationId);
      if found.None? then None else Some(ToDTO(found.value))
    }

    /**
     * `create`: appends exactly one row with the given bindings and token;
     * a token longer than its column makes the insert throw.
     */
    method Create(actorId: Uuid, installationId: Uuid, ioid: Uuid, secretUpdateId: Uuid, refreshToken: string,
                  newId: Uuid, now: Instant)
      returns (r: Result<AuthSession, Failure>)
      requires Valid()
      requires newId !in SessionIds(sessions)
      modifies this
      ensures Valid()
      ensures r.Err? <==> |refreshToken| > RefreshTokenColumn
      ensures r.Err? ==> sessions == old(sessions)
      ensures r.Ok? ==> var row := SessionRow(newId, actorId, installationId, ioid, secretUpdateId, refreshToken, now, None);
                        sessions == old(sessions) + [row] && r.value == ToDTO(row)
    {
      if |refreshToken| > RefreshTokenColumn {
        return Err(OtherThrowable("value exceeds the length of its varchar column"));
      }
      var row := SessionRow(newId, actorId, installationId, ioid, secretUpdateId, refreshToken, now, None);
      assert SessionIds(sessions + [row]) == SessionIds(sessions) + [newId];
      sessions := sessions + [row];
      r := Ok(ToDTO(row));
    }
  }
}
