/**
 * The actor routes. Signup (POST `actors`) creates an account from a
 * handle, a name and a secret, provided the installation proves control
 * of at least one phone number: the `Challenge-Response` header lists
 * `<property id>=<code>` pairs for properties the installation registered
 * (POST `actors/properties`). Also the contact-link POST and the small
 * lookup and delete routes.
 */
module ActorsApi {
  import opened Common
  import opened Text
  import opened ApiErrors
  import opened Api
  import opened Actors
  import opened ActorProperties
  import opened ActorLinks
  import Installations
  import AuthSessions
  import Messages

  datatype CreateUserAccount = CreateUserAccount(handle: string, name: string, secret: string)

  /** The signup response: the actor, with its now owned properties as hints. */
  datatype SignupResult = SignupResult(actor: Actor, properties: seq<ActorProperty>)

  /** Signup bounds after trimming: handle [3, 20], name [3, 50], secret at least 8. */
  const HandleMin := 3
  const HandleMax := 20
  const NameMin := 3
  const NameMax := 50
  const SecretMin := 8

  /**
   * The first failing bound, in the route's order (handle, name, secret),
   * as the field it is reported on and its size error; None when all hold.
   */
  function CheckBounds(handle: string, name: string, secret: string): (r: Option<(string, ApiError)>)
    ensures r.None? <==> HandleMin <= |handle| <= HandleMax && NameMin <= |name| <= NameMax && |secret| >= SecretMin
    ensures r.Some? && r.value.0 == "handle" <==> !(HandleMin <= |handle| <= HandleMax)
    ensures r.Some? && r.value.0 == "name" <==> HandleMin <= |handle| <= HandleMax && !(NameMin <= |name| <= NameMax)
    ensures r.Some? ==> r.value.1.Size?
  {
    if |handle| < HandleMin || |handle| > HandleMax then
      Some(("handle", ApiError.Size(Some(Text(handle)), Some(HandleMin), Some(HandleMax), None)))
    else if |name| < NameMin || |name| > NameMax then
      Some(("name", ApiError.Size(Some(Text(name)), Some(NameMin), Some(NameMax), None)))
    else if |secret| < SecretMin then
      Some(("secret", ApiError.Size(None, Some(SecretMin), None, None)))
    else None
  }

  /**
   * A trimmed handle of 19 or 20 characters passes the signup bounds but
   * not the 18-character handle column, so the actor insert throws.
   */
  lemma HandleBoundExceedsColumn(req: CreateUserAccount)
    requires CheckBounds(Trim(req.handle), Trim(req.name), SanitizeSecret(req.secret)).None?
    requires |Trim(req.handle)| > HandleColumn
    ensures !Actors.FitsColumns(SanitizeHandle(Trim(req.handle)), Trim(req.name), None, SanitizeSecret(req.secret))
  {
    TrimIdempotent(req.handle);
  }

  /** Such a request exists: nineteen letters, a name and an eight-character secret. */
  lemma HandleBoundAdmitsNineteen()
    ensures var req := CreateUserAccount("abcdefghijklmnopqrs", "name", "password");
            CheckBounds(Trim(req.handle), Trim(req.name), SanitizeSecret(req.secret)).None?
            && |Trim(req.handle)| > HandleColumn
  {
    var req := CreateUserAccount("abcdefghijklmnopqrs", "name", "password");
    TrimOfTrimmed(req.handle);
    TrimOfTrimmed(req.name);
    TrimOfTrimmed(req.secret);
  }

  /** The pieces of the `Challenge-Response` values: each value split on ';' and ',', in order. */
  function ResponsePieces(values: seq<string>): (r: seq<string>)
    ensures forall piece, c :: piece in r && c in piece ==> c != ';' && c != ','
    ensures |r| >= |values|
  {
    if values == [] then []
    else
      SplitPiecesFree(values[0], {';', ','});
      SplitOn(values[0], {';', ','}) + ResponsePieces(values[1..])
  }

  /** `split("=")` into exactly two parts: the property id text and the code. */
  function ParsePiece(piece: string): (r: Option<(string, string)>)
  {
    var parts := SplitOn(piece, {'='});
    if |parts| == 2 then Some((parts[0], parts[1])) else None
  }

  /** A piece parses exactly when it is `id=code` with no other '='. */
  lemma {:induction false} ParsePieceIff(piece: string, id: string, code: string)
    ensures ParsePiece(piece) == Some((id, code)) <==> piece == id + "=" + code && '=' !in id && '=' !in code
  {
    SplitTwoIff(piece, '=');
    if piece == id + "=" + code && '=' !in id && '=' !in code {
      SplitTwo(id, code, {'='}, '=');
    }
  }

  /** What the route makes of one challenge-response piece against the property table. */
  datatype PieceCheck = Accept(property: ActorProperty, needsValidation: bool) | Refuse(reply: Reply<SignupResult>)

  /**
   * The per-piece decisions, in order: the piece must be `id=code`, the id
   * must parse, an undeleted property with that id must exist, belong to
   * the request's installation and have no owner; a valid property is
   * accepted as it is, otherwise the code must equal its verification code
   * and it is accepted to be validated.
   */
  function CheckPiece(table: seq<ActorProperty>, installationId: Uuid, piece: string,
                      parseUuid: string -> Option<Uuid>): (r: PieceCheck)
    ensures ParsePiece(piece).None? ==>
              r == Refuse(Invalid(KeyChallengeResponse, ApiError.Schema(Some(Text(piece)), Some("<uuid>=<code>"))))
    ensures ParsePiece(piece).Some? && parseUuid(ParsePiece(piece).value.0).None? ==> r == Refuse(Thrown(InvalidUuid))
    ensures ParsePiece(piece).Some? && parseUuid(ParsePiece(piece).value.0).Some? ==>
              var id := parseUuid(ParsePiece(piece).value.0).value;
              var found := LiveById(table, id);
              && (found.None? ==> r == Refuse(Invalid(KeyChallengeResponse, ApiError.Reference(Some(Id(id))))))
              && (found.Some? && found.value.installationId != installationId ==>
                    r == Refuse(Invalid(KeyChallengeResponse, ApiError.Forbidden(Some(Id(id)), Some("installation_id"), None))))
              && (found.Some? && found.value.installationId == installationId && found.value.actorId.Some? ==>
                    r == Refuse(Invalid(KeyChallengeResponse, ApiError.Forbidden(Some(Id(id)), Some("actor_id"), None))))
    ensures r.Accept? <==>
              && ParsePiece(piece).Some? && parseUuid(ParsePiece(piece).value.0).Some?
              && var found := LiveById(table, parseUuid(ParsePiece(piece).value.0).value);
                 && found.Some? && found.value.installationId == installationId && found.value.actorId.None?
                 && (found.value.valid || found.value.verificationCode == ParsePiece(piece).value.1)
    ensures r.Accept? ==> && r.property == LiveById(table, parseUuid(ParsePiece(piece).value.0).value).value
                          && (r.needsValidation <==> !r.property.valid)
    ensures r.Refuse? ==> (r.reply.Invalid? && r.reply.field == KeyChallengeResponse) || r.reply.Thrown?
  {
    match ParsePiece(piece)
    case None => Refuse(Invalid(KeyChallengeResponse, ApiError.Schema(Some(Text(piece)), Some("<uuid>=<code>"))))
    case Some((idText, code)) =>
      match parseUuid(idText)
      case None => Refuse(Thrown(InvalidUuid))
      case Some(id) =>
        match LiveById(table, id)
        case None => Refuse(Invalid(KeyChallengeResponse, ApiError.Reference(Some(Id(id)))))
        case Some(p) =>
          if p.installationId != installationId then
            Refuse(Invalid(KeyChallengeResponse, ApiError.Forbidden(Some(Id(id)), Some("installation_id"), None)))
          else if p.actorId.Some? then
            Refuse(Invalid(KeyChallengeResponse, ApiError.Forbidden(Some(Id(id)), Some("actor_id"), None)))
          else if p.valid then Accept(p, false)
          else if p.verificationCode != code then
            Refuse(Invalid(KeyChallengeResponse, ApiError.Forbidden(Some(Text(code)), Some("code"), None)))
          else Accept(p, true)
  }

  /** An accepted property for a piece: the parsed id, the request's installation, valid and unowned. */
  predicate Accepted(q: ActorProperty, installationId: Uuid, piece: string, parseUuid: string -> Option<Uuid>)
  {
    && ParsePiece(piece).Some? && parseUuid(ParsePiece(piece).value.0) == Some(q.id)
    && q.installationId == installationId && q.actorId.None? && q.valid
  }

  /** One step of a signup loop: the property it yields or the reply it stops with, and the table it leaves. */
  datatype Step = Step(result: Result<ActorProperty, Reply<SignupResult>>, table: seq<ActorProperty>)

  /** A whole signup loop: the properties it collected or the reply it stopped with, and the table it leaves. */
  datatype Run = Run(outcome: Result<seq<ActorProperty>, Reply<SignupResult>>, table: seq<ActorProperty>)

  /** A run that follows the properties `done` already collected. */
  function After(done: seq<ActorProperty>, run: Run): (r: Run)
    ensures r.table == run.table && r.outcome.Ok? == run.outcome.Ok?
    ensures r.outcome.Ok? ==> r.outcome.value == done + run.outcome.value
    ensures r.outcome.Err? ==> r == run
  {
    match run.outcome
    case Ok(rest) => Run(Ok(done + rest), run.table)
    case Err(_) => run
  }

  lemma AfterNothing(run: Run)
    ensures After([], run) == run
  {
    if run.outcome.Ok? {
      assert [] + run.outcome.value == run.outcome.value;
    }
  }

  lemma AfterAfter(a: seq<ActorProperty>, b: seq<ActorProperty>, run: Run)
    ensures After(a, After(b, run)) == After(a + b, run)
  {
    if run.outcome.Ok? {
      assert a + (b + run.outcome.value) == (a + b) + run.outcome.value;
    }
  }

  /**
   * One iteration of the piece loop on a table: a refused piece stops the
   * loop; an accepted valid property is collected as it is; otherwise the
   * property is validated first (`validateProperty`, whose null result is a
   * Reference error and whose exception propagates).
   */
  function AcceptStep(table: seq<ActorProperty>, installationId: Uuid, piece: string,
                      parseUuid: string -> Option<Uuid>): Step
  {
    match CheckPiece(table, installationId, piece, parseUuid)
    case Refuse(reply) => Step(Err(reply), table)
    case Accept(p, needsValidation) =>
      if !needsValidation then Step(Ok(p), table)
      else
        var u := ValidateIn(table, p.id);
        match u.result
        case Err(e) => Step(Err(Thrown(e)), u.table)
        case Ok(None) => Step(Err(Invalid(KeyChallengeResponse, ApiError.Reference(Some(Id(p.id))))), u.table)
        case Ok(Some(q)) => Step(Ok(q), u.table)
  }

  /** The piece loop on a table: every piece in order, stopping at the first that is refused. */
  function AcceptRun(table: seq<ActorProperty>, installationId: Uuid, pieces: seq<string>,
                     parseUuid: string -> Option<Uuid>): Run
    decreases |pieces|
  {
    if pieces == [] then Run(Ok([]), table)
    else
      var step := AcceptStep(table, installationId, pieces[0], parseUuid);
      match step.result
      case Err(reply) => Run(Err(reply), step.table)
      case Ok(q) => After([q], AcceptRun(step.table, installationId, pieces[1..], parseUuid))
  }

  /**
   * On a consistent table a piece step never throws on its own: a refused
   * piece leaves the table and replies with the refusal; an accepted
   * property is returned validated, and exactly that row is validated.
   */
  lemma AcceptStepEffect(table: seq<ActorProperty>, installationId: Uuid, piece: string,
                         parseUuid: string -> Option<Uuid>)
    requires Consistent(table)
    ensures var c := CheckPiece(table, installationId, piece, parseUuid);
            var s := AcceptStep(table, installationId, piece, parseUuid);
            && Consistent(s.table)
            && (c.Refuse? ==> s == Step(Err(c.reply), table))
            && (c.Accept? ==> s == Step(Ok(Validated(c.property)), ValidatedRows(table, {c.property.id})))
  {
    var c := CheckPiece(table, installationId, piece, parseUuid);
    if c.Accept? {
      var p := c.property;
      var j :| 0 <= j < |table| && table[j] == p;
      ValidatedRowsOne(table, j);
      if c.needsValidation {
        assert PropertyIds(table)[j] == p.id;
        var i := IndexOfId(table, p.id).value;
        SameIdSamePosition(table, i, j);
        ValidatingUnownedSucceeds(table, i);
        WriteKeepsConsistent(table, i, Validated(p));
      } else {
        assert table[j := Validated(p)] == table;
      }
    }
  }

  /** A piece step that yields a property yields it accepted for the piece, as it now is in the table. */
  lemma AcceptStepOk(table: seq<ActorProperty>, installationId: Uuid, piece: string,
                     parseUuid: string -> Option<Uuid>)
    requires Consistent(table)
    requires AcceptStep(table, installationId, piece, parseUuid).result.Ok?
    ensures var s := AcceptStep(table, installationId, piece, parseUuid);
            var q := s.result.value;
            && Accepted(q, installationId, piece, parseUuid)
            && q in s.table && s.table == ValidatedRows(table, {q.id}) && Consistent(s.table)
  {
    AcceptStepEffect(table, installationId, piece, parseUuid);
    var c := CheckPiece(table, installationId, piece, parseUuid);
    var j :| 0 <= j < |table| && table[j] == c.property;
    assert ValidatedRows(table, {c.property.id})[j] == Validated(c.property);
  }

  /** A piece step that stops the loop leaves the table as it was. */
  lemma AcceptStepErr(table: seq<ActorProperty>, installationId: Uuid, piece: string,
                      parseUuid: string -> Option<Uuid>)
    requires Consistent(table)
    requires AcceptStep(table, installationId, piece, parseUuid).result.Err?
    ensures AcceptStep(table, installationId, piece, parseUuid).table == table
  {
    AcceptStepEffect(table, installationId, piece, parseUuid);
  }

  /** A row that is already valid survives any validation. */
  lemma ValidRowStays(table: seq<ActorProperty>, ids: set<Uuid>, q: ActorProperty)
    requires q in table && q.valid
    ensures q in ValidatedRows(table, ids)
  {
    var j :| 0 <= j < |table| && table[j] == q;
    assert ValidatedRows(table, ids)[j] == q;
  }

  /**
   * Whatever the pieces, the piece loop leaves a consistent table in which
   * some rows were validated and nothing else changed.
   */
  lemma AcceptRunKeeps(table: seq<ActorProperty>, installationId: Uuid, pieces: seq<string>,
                       parseUuid: string -> Option<Uuid>)
    requires Consistent(table)
    ensures var run := AcceptRun(table, installationId, pieces, parseUuid);
            Consistent(run.table) && exists ids :: run.table == ValidatedRows(table, ids)
  {
    var ids := AcceptRunValidated(table, installationId, pieces, parseUuid);
  }

  /** The rows the piece loop validated, as a set of ids; the table it leaves is consistent. */
  lemma {:induction false} AcceptRunValidated(table: seq<ActorProperty>, installationId: Uuid, pieces: seq<string>,
                                              parseUuid: string -> Option<Uuid>)
    returns (ids: set<Uuid>)
    requires Consistent(table)
    ensures var run := AcceptRun(table, installationId, pieces, parseUuid);
            Consistent(run.table) && run.table == ValidatedRows(table, ids)
    decreases |pieces|
  {
    ValidatedRowsNone(table);
    ids := {};
    if pieces != [] {
      var step := AcceptStep(table, installationId, pieces[0], parseUuid);
      if step.result.Err? {
        AcceptStepErr(table, installationId, pieces[0], parseUuid);
      } else {
        AcceptStepOk(table, installationId, pieces[0], parseUuid);
        var id := step.result.value.id;
        var rest := AcceptRunValidated(step.table, installationId, pieces[1..], parseUuid);
        ValidatedRowsTwice(table, {id}, rest);
        ids := {id} + rest;
      }
    }
  }

  /** The piece loop stops only with a `Challenge-Response` validation error or a thrown exception. */
  lemma {:induction false} AcceptRunFails(table: seq<ActorProperty>, installationId: Uuid, pieces: seq<string>,
                                          parseUuid: string -> Option<Uuid>)
    ensures var run := AcceptRun(table, installationId, pieces, parseUuid);
            run.outcome.Err? ==> (run.outcome.error.Invalid? && run.outcome.error.field == KeyChallengeResponse)
                                 || run.outcome.error.Thrown?
    decreases |pieces|
  {
    if pieces != [] {
      var step := AcceptStep(table, installationId, pieces[0], parseUuid);
      if step.result.Ok? {
        AcceptRunFails(step.table, installationId, pieces[1..], parseUuid);
      }
    }
  }

  /**
   * When every piece passes, the piece loop yields one accepted property
   * per piece, each as it now is in the table, and exactly their rows were
   * validated.
   */
  lemma {:induction false} AcceptRunYields(table: seq<ActorProperty>, installationId: Uuid, pieces: seq<string>,
                                           parseUuid: string -> Option<Uuid>)
    requires Consistent(table)
    ensures var run := AcceptRun(table, installationId, pieces, parseUuid);
            run.outcome.Ok? ==>
              && |run.outcome.value| == |pieces|
              && run.table == ValidatedRows(table, IdSet(run.outcome.value))
              && forall k :: 0 <= k < |pieces| ==>
                   Accepted(run.outcome.value[k], installationId, pieces[k], parseUuid)
                   && run.outcome.value[k] in run.table
    decreases |pieces|
  {
    var run := AcceptRun(table, installationId, pieces, parseUuid);
    if pieces == [] {
      ValidatedRowsNone(table);
      assert IdSet([]) == {};
      return;
    }
    var step := AcceptStep(table, installationId, pieces[0], parseUuid);
    if step.result.Err? {
      return;
    }
    AcceptStepOk(table, installationId, pieces[0], parseUuid);
    var q := step.result.value;
    AcceptRunYields(step.table, installationId, pieces[1..], parseUuid);
    var rest := AcceptRun(step.table, installationId, pieces[1..], parseUuid);
    if rest.outcome.Ok? {
      var values := run.outcome.value;
      assert values == [q] + rest.outcome.value;
      assert IdSet(values) == {q.id} + IdSet(rest.outcome.value);
      ValidatedRowsTwice(table, {q.id}, IdSet(rest.outcome.value));
      ValidRowStays(step.table, IdSet(rest.outcome.value), q);
      forall k | 0 <= k < |pieces|
        ensures Accepted(values[k], installationId, pieces[k], parseUuid) && values[k] in run.table
      {
        if k > 0 {
          assert values[k] == rest.outcome.value[k - 1] && pieces[k] == pieces[1..][k - 1];
        }
      }
    }
  }

  /** Validating rows never takes away a piece's acceptance: the row it names is the same row, perhaps now valid. */
  lemma AcceptedAfterValidation(table: seq<ActorProperty>, ids: set<Uuid>, installationId: Uuid, piece: string,
                                parseUuid: string -> Option<Uuid>)
    requires Consistent(table)
    requires CheckPiece(table, installationId, piece, parseUuid).Accept?
    ensures CheckPiece(ValidatedRows(table, ids), installationId, piece, parseUuid).Accept?
  {
    var id := parseUuid(ParsePiece(piece).value.0).value;
    var p := LiveById(table, id).value;
    var j :| 0 <= j < |table| && table[j] == p;
    var next := ValidatedRows(table, ids);
    assert next[j] in next && next[j].id == id && next[j].deletedAt == None;
    var found := LiveById(next, id).value;
    var k :| 0 <= k < |next| && next[k] == found;
    assert PropertyIds(next)[k] == PropertyIds(next)[j];
    SameIdSamePosition(table, j, k);
  }

  /** The loop lets every piece through when each piece passes on the table the loop starts from. */
  lemma {:induction false} AcceptRunAccepts(table: seq<ActorProperty>, installationId: Uuid, pieces: seq<string>,
                                            parseUuid: string -> Option<Uuid>)
    requires Consistent(table)
    requires forall k :: 0 <= k < |pieces| ==> CheckPiece(table, installationId, pieces[k], parseUuid).Accept?
    ensures AcceptRun(table, installationId, pieces, parseUuid).outcome.Ok?
    decreases |pieces|
  {
    if pieces != [] {
      AcceptStepEffect(table, installationId, pieces[0], parseUuid);
      var c := CheckPiece(table, installationId, pieces[0], parseUuid);
      var next := ValidatedRows(table, {c.property.id});
      forall k | 0 <= k < |pieces[1..]|
        ensures CheckPiece(next, installationId, pieces[1..][k], parseUuid).Accept?
      {
        assert pieces[1..][k] == pieces[k + 1];
        AcceptedAfterValidation(table, {c.property.id}, installationId, pieces[k + 1], parseUuid);
      }
      AcceptRunAccepts(next, installationId, pieces[1..], parseUuid);
    }
  }

  /** One iteration of the index loop: `ownAndPrimarizeProperty`, whose null result is a Reference error. */
  function OwnStep(table: seq<ActorProperty>, q: ActorProperty, actorId: Uuid): Step
  {
    var u := OwnIn(table, q.id, actorId);
    match u.result
    case Err(e) => Step(Err(Thrown(e)), u.table)
    case Ok(None) => Step(Err(Invalid(KeyChallengeResponse, ApiError.Reference(Some(Id(q.id))))), u.table)
    case Ok(Some(o)) => Step(Ok(o), u.table)
  }

  /** The index loop on a table: every accepted property in order, stopping at the first failure. */
  function OwnRun(table: seq<ActorProperty>, accepted: seq<ActorProperty>, actorId: Uuid): Run
    decreases |accepted|
  {
    if accepted == [] then Run(Ok([]), table)
    else
      var step := OwnStep(table, accepted[0], actorId);
      match step.result
      case Err(reply) => Run(Err(reply), step.table)
      case Ok(o) => After([o], OwnRun(step.table, accepted[1..], actorId))
  }

  /**
   * One step of the index loop on a consistent table, for a property that
   * is a row of it (or whose owned form is): it either owns exactly that
   * row and yields it owned and primary, or it throws the index violation
   * and leaves the table, and then owning any set of rows including that
   * one breaks the content index.
   */
  lemma OwnStepEffect(table: seq<ActorProperty>, q: ActorProperty, actorId: Uuid, all: set<Uuid>)
    requires Consistent(table)
    requires q in table || OwnedPrimary(q, actorId) in table
    requires q.id in all
    ensures var s := OwnStep(table, q, actorId);
            && Consistent(s.table)
            && (s.result.Ok? ==> s == Step(Ok(OwnedPrimary(q, actorId)), OwnedRows(table, {q.id}, actorId)))
            && (s.result.Err? ==> s == Step(Err(Thrown(ContentTaken)), table)
                                  && !ContentUnique(OwnedRows(table, all, actorId)))
  {
    var i := RowOf(table, q, actorId);
    var at := IndexOfId(table, q.id).value;
    SameIdSamePosition(table, at, i);
    var row := OwnedPrimary(table[i], actorId);
    assert table[i] in table;
    OwnedRowsOne(table, i, actorId);
    if ClashesAt(table, i, row) {
      var owned := OwnedRows(table, all, actorId);
      var j :| 0 <= j < |table| && j != i && Indexed(table[j]) && table[j].content == row.content;
      assert owned[i] == row && Indexed(owned[j]) && owned[j].content == row.content;
      if i < j {
        assert !ContentUnique(owned);
      } else {
        assert !ContentUnique(owned);
      }
    } else {
      WriteKeepsConsistent(table, i, row);
    }
  }

  /**
   * A first step of the index loop that succeeds owns that row and hands
   * the rest of the loop a consistent table that still holds the other
   * properties (or their owned forms).
   */
  lemma OwnRunFirst(table: seq<ActorProperty>, accepted: seq<ActorProperty>, actorId: Uuid)
    requires Consistent(table)
    requires accepted != []
    requires forall q :: q in accepted ==> q in table || OwnedPrimary(q, actorId) in table
    requires OwnStep(table, accepted[0], actorId).result.Ok?
    ensures var next := OwnedRows(table, {accepted[0].id}, actorId);
            && Consistent(next)
            && (forall q :: q in accepted[1..] ==> q in next || OwnedPrimary(q, actorId) in next)
            && OwnRun(table, accepted, actorId)
               == After([OwnedPrimary(accepted[0], actorId)], OwnRun(next, accepted[1..], actorId))
  {
    var q := accepted[0];
    assert q in accepted;
    OwnStepEffect(table, q, actorId, {q.id});
    var next := OwnedRows(table, {q.id}, actorId);
    forall q' | q' in accepted[1..]
      ensures q' in next || OwnedPrimary(q', actorId) in next
    {
      assert q' in accepted;
      OwnedRowsKeep(table, {q.id}, actorId, q');
    }
  }

  /** The index loop stopped by its first step (or by having nothing to do) leaves the table as it was. */
  lemma OwnRunStops(table: seq<ActorProperty>, accepted: seq<ActorProperty>, actorId: Uuid)
    requires Consistent(table)
    requires forall q :: q in accepted ==> q in table || OwnedPrimary(q, actorId) in table
    requires accepted == [] || OwnStep(table, accepted[0], actorId).result.Err?
    ensures OwnRun(table, accepted, actorId).table == table == OwnedRows(table, {}, actorId)
  {
    OwnedRowsNone(table, actorId);
    if accepted != [] {
      assert accepted[0] in accepted;
      OwnStepEffect(table, accepted[0], actorId, {accepted[0].id});
    }
  }

  /** The rows the rest of the index loop owned, after the first step owned its own row, were owned from the start. */
  lemma OwnRunContinues(table: seq<ActorProperty>, accepted: seq<ActorProperty>, actorId: Uuid, ids: set<Uuid>)
    requires Consistent(table)
    requires accepted != []
    requires forall q :: q in accepted ==> q in table || OwnedPrimary(q, actorId) in table
    requires OwnStep(table, accepted[0], actorId).result.Ok?
    requires OwnRun(OwnedRows(table, {accepted[0].id}, actorId), accepted[1..], actorId).table
             == OwnedRows(OwnedRows(table, {accepted[0].id}, actorId), ids, actorId)
    ensures OwnRun(table, accepted, actorId).table == OwnedRows(table, {accepted[0].id} + ids, actorId)
  {
    OwnRunFirst(table, accepted, actorId);
    OwnedRowsTwice(table, {accepted[0].id}, ids, actorId);
  }

  /** For properties that are rows of it, the index loop leaves a consistent table. */
  lemma {:induction false} OwnRunConsistent(table: seq<ActorProperty>, accepted: seq<ActorProperty>, actorId: Uuid)
    requires Consistent(table)
    requires forall q :: q in accepted ==> q in table || OwnedPrimary(q, actorId) in table
    ensures Consistent(OwnRun(table, accepted, actorId).table)
    decreases |accepted|
  {
    if accepted == [] || OwnStep(table, accepted[0], actorId).result.Err? {
      OwnRunStops(table, accepted, actorId);
    } else {
      OwnRunFirst(table, accepted, actorId);
      OwnRunConsistent(OwnedRows(table, {accepted[0].id}, actorId), accepted[1..], actorId);
    }
  }

  /** For properties that are rows of it, the rows the index loop owned, as a set of ids. */
  lemma {:induction false} OwnRunOwned(table: seq<ActorProperty>, accepted: seq<ActorProperty>, actorId: Uuid)
    returns (ids: set<Uuid>)
    requires Consistent(table)
    requires forall q :: q in accepted ==> q in table || OwnedPrimary(q, actorId) in table
    ensures OwnRun(table, accepted, actorId).table == OwnedRows(table, ids, actorId)
    decreases |accepted|
  {
    if accepted == [] || OwnStep(table, accepted[0], actorId).result.Err? {
      OwnRunStops(table, accepted, actorId);
      ids := {};
    } else {
      OwnRunFirst(table, accepted, actorId);
      var rest := OwnRunOwned(OwnedRows(table, {accepted[0].id}, actorId), accepted[1..], actorId);
      OwnRunContinues(table, accepted, actorId, rest);
      ids := {accepted[0].id} + rest;
    }
  }

  /** For properties that are rows of it, the index loop leaves a consistent table in which some rows were owned. */
  lemma OwnRunKeeps(table: seq<ActorProperty>, accepted: seq<ActorProperty>, actorId: Uuid)
    requires Consistent(table)
    requires forall q :: q in accepted ==> q in table || OwnedPrimary(q, actorId) in table
    ensures var run := OwnRun(table, accepted, actorId);
            Consistent(run.table) && exists ids :: run.table == OwnedRows(table, ids, actorId)
  {
    OwnRunConsistent(table, accepted, actorId);
    var ids := OwnRunOwned(table, accepted, actorId);
  }

  /**
   * When the index loop succeeds on properties that are rows of the table,
   * it yields each of them owned and primary, and exactly their rows were
   * owned.
   */
  lemma {:induction false} OwnRunYields(table: seq<ActorProperty>, accepted: seq<ActorProperty>, actorId: Uuid)
    requires Consistent(table)
    requires forall q :: q in accepted ==> q in table || OwnedPrimary(q, actorId) in table
    ensures var run := OwnRun(table, accepted, actorId);
            run.outcome.Ok? ==>
              && run.table == OwnedRows(table, IdSet(accepted), actorId)
              && |run.outcome.value| == |accepted|
              && forall k :: 0 <= k < |accepted| ==> run.outcome.value[k] == OwnedPrimary(accepted[k], actorId)
    decreases |accepted|
  {
    if accepted == [] {
      OwnedRowsNone(table, actorId);
      assert IdSet(accepted) == {};
      return;
    }
    if OwnStep(table, accepted[0], actorId).result.Ok? {
      OwnRunFirst(table, accepted, actorId);
      OwnRunYields(OwnedRows(table, {accepted[0].id}, actorId), accepted[1..], actorId);
      OwnRunYieldsOn(table, accepted, actorId);
    }
  }

  /** The step case of `OwnRunYields`: the first row owned, then the rest of the loop's yield. */
  lemma OwnRunYieldsOn(table: seq<ActorProperty>, accepted: seq<ActorProperty>, actorId: Uuid)
    requires Consistent(table)
    requires accepted != []
    requires forall q :: q in accepted ==> q in table || OwnedPrimary(q, actorId) in table
    requires OwnStep(table, accepted[0], actorId).result.Ok?
    requires var rest := OwnRun(OwnedRows(table, {accepted[0].id}, actorId), accepted[1..], actorId);
             rest.outcome.Ok? ==>
               && rest.table == OwnedRows(OwnedRows(table, {accepted[0].id}, actorId), IdSet(accepted[1..]), actorId)
               && |rest.outcome.value| == |accepted[1..]|
               && forall k :: 0 <= k < |accepted[1..]| ==> rest.outcome.value[k] == OwnedPrimary(accepted[1..][k], actorId)
    ensures var run := OwnRun(table, accepted, actorId);
            run.outcome.Ok? ==>
              && run.table == OwnedRows(table, IdSet(accepted), actorId)
              && |run.outcome.value| == |accepted|
              && forall k :: 0 <= k < |accepted| ==> run.outcome.value[k] == OwnedPrimary(accepted[k], actorId)
  {
    var q := accepted[0];
    OwnRunFirst(table, accepted, actorId);
    var rest := OwnRun(OwnedRows(table, {q.id}, actorId), accepted[1..], actorId);
    if rest.outcome.Ok? {
      IdSetFirst(accepted);
      OwnedRowsTwice(table, {q.id}, IdSet(accepted[1..]), actorId);
      OwnedPrepend(accepted, rest.outcome.value, actorId);
    }
  }

  /** The ids of a non-empty sequence of properties: the first one's and the rest's. */
  lemma IdSetFirst(qs: seq<ActorProperty>)
    requires qs != []
    ensures IdSet(qs) == {qs[0].id} + IdSet(qs[1..])
  {
    assert qs == [qs[0]] + qs[1..];
  }

  /** Owning the first property in front of the owned rest owns each property in turn. */
  lemma OwnedPrepend(accepted: seq<ActorProperty>, rest: seq<ActorProperty>, actorId: Uuid)
    requires accepted != []
    requires |rest| == |accepted[1..]|
    requires forall k :: 0 <= k < |accepted[1..]| ==> rest[k] == OwnedPrimary(accepted[1..][k], actorId)
    ensures var values := [OwnedPrimary(accepted[0], actorId)] + rest;
            forall k :: 0 <= k < |accepted| ==> values[k] == OwnedPrimary(accepted[k], actorId)
  {
    var values := [OwnedPrimary(accepted[0], actorId)] + rest;
    forall k | 0 <= k < |accepted|
      ensures values[k] == OwnedPrimary(accepted[k], actorId)
    {
      if k > 0 {
        assert values[k] == rest[k - 1] && accepted[k] == accepted[1..][k - 1];
      }
    }
  }

  /**
   * When the index loop fails on properties that are rows of the table, it
   * throws the index violation, and owning all their rows (or any set of
   * rows including theirs) breaks the content index.
   */
  lemma {:induction false} OwnRunFails(table: seq<ActorProperty>, accepted: seq<ActorProperty>, actorId: Uuid,
                                       all: set<Uuid>)
    requires Consistent(table)
    requires forall q :: q in accepted ==> q in table || OwnedPrimary(q, actorId) in table
    requires IdSet(accepted) <= all
    ensures var run := OwnRun(table, accepted, actorId);
            run.outcome.Err? ==> run.outcome.error == Thrown(ContentTaken) && !ContentUnique(OwnedRows(table, all, actorId))
    decreases |accepted|
  {
    if accepted != [] {
      var q := accepted[0];
      assert q in accepted;
      OwnStepEffect(table, q, actorId, all);
      if OwnStep(table, q, actorId).result.Ok? {
        var next := OwnedRows(table, {q.id}, actorId);
        forall q' | q' in accepted[1..]
          ensures q' in next || OwnedPrimary(q', actorId) in next
        {
          assert q' in accepted;
          OwnedRowsKeep(table, {q.id}, actorId, q');
        }
        assert IdSet(accepted[1..]) <= IdSet(accepted);
        OwnRunFails(next, accepted[1..], actorId, all);
        OwnedRowsTwice(table, {q.id}, all, actorId);
        assert {q.id} + all == all;
      }
    }
  }

  /** One iteration of the piece loop, on the property table. */
  method AcceptPiece(props: ActorPropertiesService, installationId: Uuid, piece: string,
                     parseUuid: string -> Option<Uuid>)
    returns (r: Result<ActorProperty, Reply<SignupResult>>)
    requires props.Valid()
    modifies props
    ensures props.Valid()
    ensures Step(r, props.properties) == AcceptStep(old(props.properties), installationId, piece, parseUuid)
    ensures var c := CheckPiece(old(props.properties), installationId, piece, parseUuid);
            && (c.Refuse? ==> r == Err(c.reply) && props.properties == old(props.properties))
            && (c.Accept? ==> r == Ok(Validated(c.property))
                              && props.properties == ValidatedRows(old(props.properties), {c.property.id}))
  {
    AcceptStepEffect(props.properties, installationId, piece, parseUuid);
    var verdict := CheckPiece(props.properties, installationId, piece, parseUuid);
    if verdict.Refuse? {
      return Err(verdict.reply);
    }
    var p := verdict.property;
    if !verdict.needsValidation {
      return Ok(p);
    }
    var validated := props.ValidateProperty(p.id);
    r := match validated
      case Err(e) => Err(Thrown(e))
      case Ok(None) => Err(Invalid(KeyChallengeResponse, ApiError.Reference(Some(Id(p.id)))))
      case Ok(Some(q)) => Ok(q);
  }

  /** The `forEach` over all pieces: every piece must be accepted, in order. */
  method AcceptAll(props: ActorPropertiesService, installationId: Uuid, pieces: seq<string>,
                   parseUuid: string -> Option<Uuid>)
    returns (r: Result<seq<ActorProperty>, Reply<SignupResult>>)
    requires props.Valid()
    modifies props
    ensures props.Valid()
    ensures Run(r, props.properties) == AcceptRun(old(props.properties), installationId, pieces, parseUuid)
  {
    var accepted: seq<ActorProperty> := [];
    var k := 0;
    assert pieces[k..] == pieces;
    AfterNothing(AcceptRun(props.properties, installationId, pieces, parseUuid));
    while k < |pieces|
      invariant 0 <= k <= |pieces|
      invariant props.Valid()
      invariant AcceptRun(old(props.properties), installationId, pieces, parseUuid)
                == After(accepted, AcceptRun(props.properties, installationId, pieces[k..], parseUuid))
    {
      ghost var before := props.properties;
      var one := AcceptPiece(props, installationId, pieces[k], parseUuid);
      assert pieces[k..][1..] == pieces[k + 1..];
      if one.Err? {
        return Err(one.error);
      }
      AfterAfter(accepted, [one.value], AcceptRun(props.properties, installationId, pieces[k + 1..], parseUuid));
      accepted := accepted + [one.value];
      k := k + 1;
    }
    assert accepted + [] == accepted;
    return Ok(accepted);
  }

  /** The index loop after the actor exists: each accepted property is given to it and made primary, in place. */
  method OwnAll(props: ActorPropertiesService, accepted: seq<ActorProperty>, actorId: Uuid)
    returns (r: Result<seq<ActorProperty>, Reply<SignupResult>>)
    requires props.Valid()
    modifies props
    ensures props.Valid()
    ensures Run(r, props.properties) == OwnRun(old(props.properties), accepted, actorId)
  {
    var properties := accepted;
    var i := 0;
    assert accepted[i..] == accepted && properties[..i] == [];
    AfterNothing(OwnRun(props.properties, accepted, actorId));
    while i < |properties|
      invariant 0 <= i <= |properties| && |properties| == |accepted|
      invariant props.Valid()
      invariant properties[i..] == accepted[i..]
      invariant OwnRun(old(props.properties), accepted, actorId)
                == After(properties[..i], OwnRun(props.properties, accepted[i..], actorId))
    {
      var q := properties[i];
      assert q == accepted[i..][0];
      assert accepted[i..][1..] == accepted[i + 1..];
      var owned := props.OwnAndPrimarizeProperty(q.id, actorId);
      if owned.Err? {
        return Err(Thrown(owned.error));
      }
      if owned.value.None? {
        return Err(Invalid(KeyChallengeResponse, ApiError.Reference(Some(Id(q.id)))));
      }
      AfterAfter(properties[..i], [owned.value.value], OwnRun(props.properties, accepted[i + 1..], actorId));
      assert properties[i := owned.value.value][..i + 1] == properties[..i] + [owned.value.value];
      assert properties[i := owned.value.value][i + 1..] == properties[i + 1..];
      properties := properties[i := owned.value.value];
      i := i + 1;
    }
    assert properties[..i] + [] == properties;
    return Ok(properties);
  }

  /** The bounds as the route applies them: to the trimmed handle and name and the sanitised secret. */
  function SignupBounds(req: CreateUserAccount): (r: Option<(string, ApiError)>)
    ensures r.None? ==> && HandleMin <= |Trim(req.handle)| <= HandleMax
                        && NameMin <= |Trim(req.name)| <= NameMax
                        && |SanitizeSecret(req.secret)| >= SecretMin
  {
    CheckBounds(Trim(req.handle), Trim(req.name), SanitizeSecret(req.secret))
  }

  /**
   * The checks signup makes before touching any table, in order: the
   * `Installation-Id` header, the bounds, and the presence of the
   * `Challenge-Response` header. On success: the installation id and the
   * pieces of every value of that header.
   */
  function Preflight(headers: Headers, parseUuid: string -> Option<Uuid>, req: CreateUserAccount)
    : (r: Result<(Uuid, seq<string>), Reply<SignupResult>>)
    ensures InstallationIdHeader(headers, parseUuid).Err? ==> r == Err(Thrown(InstallationIdHeader(headers, parseUuid).error))
    ensures InstallationIdHeader(headers, parseUuid).Ok? && SignupBounds(req).Some? ==>
              r == Err(Invalid(SignupBounds(req).value.0, SignupBounds(req).value.1))
    ensures InstallationIdHeader(headers, parseUuid).Ok? && SignupBounds(req).None?
            && HeaderValues(headers, KeyChallengeResponse).None? ==>
              r == Err(Invalid(KeyChallengeResponse, ApiError.Required(None, None)))
    ensures r.Ok? <==> && InstallationIdHeader(headers, parseUuid).Ok? && SignupBounds(req).None?
                       && HeaderValues(headers, KeyChallengeResponse).Some?
    ensures r.Ok? ==> r.value == (InstallationIdHeader(headers, parseUuid).value,
                                  ResponsePieces(HeaderValues(headers, KeyChallengeResponse).value))
    ensures r.Err? ==> r.error.Thrown? || r.error.Invalid?
  {
    var installation := InstallationIdHeader(headers, parseUuid);
    if installation.Err? then Err(Thrown(installation.error))
    else
      var bounds := CheckBounds(Trim(req.handle), Trim(req.name), SanitizeSecret(req.secret));
      if bounds.Some? then Err(Invalid(bounds.value.0, bounds.value.1))
      else
        match HeaderValues(headers, KeyChallengeResponse)
        case None => Err(Invalid(KeyChallengeResponse, ApiError.Required(None, None)))
        case Some(values) => Ok((installation.value, ResponsePieces(values)))
  }

  /** The three tables signup writes: actors, secret updates and properties. */
  datatype Tables = Tables(actors: seq<Actor>, secretUpdates: seq<SecretUpdate>, properties: seq<ActorProperty>)

  /** A signup's reply together with the tables it leaves. */
  datatype Outcome = Outcome(reply: Reply<SignupResult>, tables: Tables)

  /** The actor row signup inserts (`create`). */
  function SignupActor(id: Uuid, handle: string, name: string, secret: string, now: Instant): (a: Actor)
    ensures a.id == id && a.type_ == Account && a.auth == Default && a.deletedAt == None
  {
    Actor(id, Account, Default, SanitizeHandle(handle), name, None, secret, None, None, now, None)
  }

  /** Some property is a phone number. */
  predicate HasPhone(qs: seq<ActorProperty>)
  {
    exists q :: q in qs && q.type_ == PhoneNo
  }

  /**
   * The signup steps after every piece was accepted, on the tables: the
   * phone-number rule, the actor insert, the index loop and the secret
   * record. The secret record cannot fail here (the secret fitted its
   * column at the actor insert and the actor now exists). Nothing done
   * before a failure is undone.
   */
  function EnrollOutcome(t: Tables, accepted: seq<ActorProperty>, handle: string, name: string, secret: string,
                         newActorId: Uuid, updateId: Uuid, now: Instant): Outcome
  {
    if !HasPhone(accepted) then Outcome(Invalid(KeyChallengeResponse, ApiError.Required(None, Some("PhoneNo"))), t)
    else
      match InsertFailure(t.actors, handle, name, secret)
      case Some(f) => Outcome(Thrown(f), t)
      case None =>
        var actor := SignupActor(newActorId, handle, name, secret, now);
        var own := OwnRun(t.properties, accepted, newActorId);
        match own.outcome
        case Err(reply) => Outcome(reply, Tables(t.actors + [actor], t.secretUpdates, own.table))
        case Ok(owned) =>
          Outcome(Created(SignupResult(actor, owned)),
                  Tables(t.actors + [actor], t.secretUpdates + [SecretUpdate(updateId, newActorId, secret, now)], own.table))
  }

  /** The piece loop followed by the enrolment steps, on the tables. */
  function AdmitOutcome(t: Tables, installationId: Uuid, pieces: seq<string>, parseUuid: string -> Option<Uuid>,
                        handle: string, name: string, secret: string,
                        newActorId: Uuid, updateId: Uuid, now: Instant): Outcome
  {
    var run := AcceptRun(t.properties, installationId, pieces, parseUuid);
    match run.outcome
    case Err(reply) => Outcome(reply, t.(properties := run.table))
    case Ok(accepted) => EnrollOutcome(t.(properties := run.table), accepted, handle, name, secret, newActorId, updateId, now)
  }

  /** The signup route on the tables: the preflight checks, then the rest on the trimmed and sanitised request. */
  function SignupOutcome(t: Tables, headers: Headers, parseUuid: string -> Option<Uuid>, req: CreateUserAccount,
                         newActorId: Uuid, updateId: Uuid, now: Instant): Outcome
  {
    match Preflight(headers, parseUuid, req)
    case Err(reply) => Outcome(reply, t)
    case Ok((installationId, pieces)) =>
      AdmitOutcome(t, installationId, pieces, parseUuid, Trim(req.handle), Trim(req.name), SanitizeSecret(req.secret),
                   newActorId, updateId, now)
  }

  /**
   * The enrolment steps on a consistent property table, for accepted
   * properties that are rows of it: they create the account exactly when
   * one property is a phone number, the actor insert succeeds and owning
   * all their rows keeps the content index unique. The account is then the
   * new actor, its secret is recorded, every property comes back owned and
   * primary, and exactly their rows were owned.
   */
  lemma EnrollEffect(t: Tables, accepted: seq<ActorProperty>, handle: string, name: string, secret: string,
                     newActorId: Uuid, updateId: Uuid, now: Instant)
    requires Consistent(t.properties)
    requires forall q :: q in accepted ==> q in t.properties
    ensures var o := EnrollOutcome(t, accepted, handle, name, secret, newActorId, updateId, now);
            && Consistent(o.tables.properties)
            && (o.reply.Created? <==> && HasPhone(accepted) && InsertFailure(t.actors, handle, name, secret).None?
                                      && ContentUnique(OwnedRows(t.properties, IdSet(accepted), newActorId)))
            && (o.reply.Created? ==>
                  && o.reply.data.actor == SignupActor(newActorId, handle, name, secret, now)
                  && o.tables == Tables(t.actors + [o.reply.data.actor],
                                        t.secretUpdates + [SecretUpdate(updateId, newActorId, secret, now)],
                                        OwnedRows(t.properties, IdSet(accepted), newActorId))
                  && |o.reply.data.properties| == |accepted|
                  && forall k :: 0 <= k < |accepted| ==>
                       o.reply.data.properties[k] == OwnedPrimary(accepted[k], newActorId))
  {
    OwnRunKeeps(t.properties, accepted, newActorId);
    OwnRunYields(t.properties, accepted, newActorId);
    OwnRunFails(t.properties, accepted, newActorId, IdSet(accepted));
  }

  /**
   * The properties of a successful signup, piece by piece: the property
   * the piece names, registered by the request's installation, valid, now
   * owned by the new actor and primary.
   */
  predicate PiecesOwned(properties: seq<ActorProperty>, pieces: seq<string>, installationId: Uuid,
                        parseUuid: string -> Option<Uuid>, actorId: Uuid)
  {
    && |properties| == |pieces|
    && forall k :: 0 <= k < |pieces| ==>
         && ParsePiece(pieces[k]).Some? && parseUuid(ParsePiece(pieces[k]).value.0) == Some(properties[k].id)
         && properties[k].installationId == installationId && properties[k].valid
         && properties[k].actorId == Some(actorId) && properties[k].primary == Some(true)
  }

  /**
   * Properties of a table, owned one by one: they keep their ids and types,
   * and each is in the table once all their rows were owned.
   */
  lemma OwnedYield(table: seq<ActorProperty>, accepted: seq<ActorProperty>, values: seq<ActorProperty>, actorId: Uuid)
    requires forall q :: q in accepted ==> q in table
    requires |values| == |accepted| && forall k :: 0 <= k < |accepted| ==> values[k] == OwnedPrimary(accepted[k], actorId)
    ensures IdSet(values) == IdSet(accepted)
    ensures HasPhone(accepted) ==> HasPhone(values)
    ensures forall q :: q in values ==> q in OwnedRows(table, IdSet(accepted), actorId)
  {
    OwnedKeepsIds(accepted, values, actorId);
    OwnedKeepsPhone(accepted, values, actorId);
    OwnedInTable(table, accepted, values, actorId);
  }

  /** Owning properties one by one keeps their ids. */
  lemma OwnedKeepsIds(accepted: seq<ActorProperty>, values: seq<ActorProperty>, actorId: Uuid)
    requires |values| == |accepted| && forall k :: 0 <= k < |accepted| ==> values[k] == OwnedPrimary(accepted[k], actorId)
    ensures IdSet(values) == IdSet(accepted)
  {
    forall x | x in IdSet(accepted) ensures x in IdSet(values) {
      var k :| 0 <= k < |accepted| && accepted[k].id == x;
      assert values[k] in values;
    }
  }

  /** Owning properties one by one keeps a phone number among them. */
  lemma OwnedKeepsPhone(accepted: seq<ActorProperty>, values: seq<ActorProperty>, actorId: Uuid)
    requires |values| == |accepted| && forall k :: 0 <= k < |accepted| ==> values[k] == OwnedPrimary(accepted[k], actorId)
    ensures HasPhone(accepted) ==> HasPhone(values)
  {
    if HasPhone(accepted) {
      var p :| p in accepted && p.type_ == PhoneNo;
      var kp :| 0 <= kp < |accepted| && accepted[kp] == p;
      assert values[kp] in values;
    }
  }

  /** Rows of a table owned one by one are in the table once all their rows were owned. */
  lemma OwnedInTable(table: seq<ActorProperty>, accepted: seq<ActorProperty>, values: seq<ActorProperty>, actorId: Uuid)
    requires forall q :: q in accepted ==> q in table
    requires |values| == |accepted| && forall k :: 0 <= k < |accepted| ==> values[k] == OwnedPrimary(accepted[k], actorId)
    ensures forall q :: q in values ==> q in OwnedRows(table, IdSet(accepted), actorId)
  {
    forall q | q in values ensures q in OwnedRows(table, IdSet(accepted), actorId) {
      var k :| 0 <= k < |values| && values[k] == q;
      assert accepted[k] in accepted;
      var j :| 0 <= j < |table| && table[j] == accepted[k];
      assert OwnedRows(table, IdSet(accepted), actorId)[j] == q;
    }
  }

  /**
   * What a successful enrolment returns: properties with the ids of the
   * accepted ones, a phone number among them, each as it now is in the
   * property table.
   */
  lemma EnrollYields(t: Tables, accepted: seq<ActorProperty>, handle: string, name: string, secret: string,
                     newActorId: Uuid, updateId: Uuid, now: Instant)
    requires Consistent(t.properties)
    requires forall q :: q in accepted ==> q in t.properties
    ensures var o := EnrollOutcome(t, accepted, handle, name, secret, newActorId, updateId, now);
            o.reply.Created? ==>
              && IdSet(o.reply.data.properties) == IdSet(accepted)
              && HasPhone(o.reply.data.properties)
              && forall q :: q in o.reply.data.properties ==> q in o.tables.properties
  {
    var o := EnrollOutcome(t, accepted, handle, name, secret, newActorId, updateId, now);
    EnrollEffect(t, accepted, handle, name, secret, newActorId, updateId, now);
    if o.reply.Created? {
      OwnedYield(t.properties, accepted, o.reply.data.properties, newActorId);
    }
  }

  /**
   * A successful admission on a consistent property table: the new actor
   * and its secret record were appended; the returned properties are one
   * per piece, valid, owned by the actor and primary, with a phone number
   * among them, each as it now is in the table; and the property table
   * differs only in their rows, which were validated and owned.
   */
  lemma AdmitEffect(t: Tables, installationId: Uuid, pieces: seq<string>, parseUuid: string -> Option<Uuid>,
                    handle: string, name: string, secret: string, newActorId: Uuid, updateId: Uuid, now: Instant)
    requires Consistent(t.properties)
    ensures var o := AdmitOutcome(t, installationId, pieces, parseUuid, handle, name, secret, newActorId, updateId, now);
            o.reply.Created? ==>
              var data := o.reply.data;
              var owned := IdSet(data.properties);
              && data.actor == SignupActor(newActorId, handle, name, secret, now)
              && o.tables == Tables(t.actors + [data.actor],
                                    t.secretUpdates + [SecretUpdate(updateId, newActorId, secret, now)],
                                    OwnedRows(ValidatedRows(t.properties, owned), owned, newActorId))
              && HasPhone(data.properties)
              && PiecesOwned(data.properties, pieces, installationId, parseUuid, newActorId)
              && forall q :: q in data.properties ==> q in o.tables.properties
  {
    var run := AcceptRun(t.properties, installationId, pieces, parseUuid);
    AcceptRunFails(t.properties, installationId, pieces, parseUuid);
    if run.outcome.Ok? {
      AcceptRunKeeps(t.properties, installationId, pieces, parseUuid);
      AcceptRunYields(t.properties, installationId, pieces, parseUuid);
      var accepted := run.outcome.value;
      var mid := t.(properties := run.table);
      EnrollEffect(mid, accepted, handle, name, secret, newActorId, updateId, now);
      EnrollYields(mid, accepted, handle, name, secret, newActorId, updateId, now);
      var o := EnrollOutcome(mid, accepted, handle, name, secret, newActorId, updateId, now);
      if o.reply.Created? {
        PiecesOwnedFrom(accepted, o.reply.data.properties, pieces, installationId, parseUuid, newActorId);
      }
    }
  }

  /** Accepted properties, owned one by one, are the properties of a successful signup, piece by piece. */
  lemma PiecesOwnedFrom(accepted: seq<ActorProperty>, values: seq<ActorProperty>, pieces: seq<string>,
                        installationId: Uuid, parseUuid: string -> Option<Uuid>, actorId: Uuid)
    requires |accepted| == |pieces| == |values|
    requires forall k :: 0 <= k < |pieces| ==> Accepted(accepted[k], installationId, pieces[k], parseUuid)
    requires forall k :: 0 <= k < |accepted| ==> values[k] == OwnedPrimary(accepted[k], actorId)
    ensures PiecesOwned(values, pieces, installationId, parseUuid, actorId)
  {
  }

  /**
   * A successful signup on a consistent property table: the preflight
   * passed, and the admission of the trimmed handle and name and the
   * sanitised secret succeeded (see `AdmitEffect`).
   */
  lemma SignupEffect(t: Tables, headers: Headers, parseUuid: string -> Option<Uuid>, req: CreateUserAccount,
                     newActorId: Uuid, updateId: Uuid, now: Instant)
    requires Consistent(t.properties)
    ensures var o := SignupOutcome(t, headers, parseUuid, req, newActorId, updateId, now);
            o.reply.Created? ==>
              && Preflight(headers, parseUuid, req).Ok?
              && var (installationId, pieces) := Preflight(headers, parseUuid, req).value;
                 var data := o.reply.data;
                 var owned := IdSet(data.properties);
                 && data.actor == SignupActor(newActorId, Trim(req.handle), Trim(req.name), SanitizeSecret(req.secret), now)
                 && o.tables == Tables(t.actors + [data.actor],
                                       t.secretUpdates + [SecretUpdate(updateId, newActorId, data.actor.secret, now)],
                                       OwnedRows(ValidatedRows(t.properties, owned), owned, newActorId))
                 && HasPhone(data.properties)
                 && PiecesOwned(data.properties, pieces, installationId, parseUuid, newActorId)
                 && forall q :: q in data.properties ==> q in o.tables.properties
  {
    var preflight := Preflight(headers, parseUuid, req);
    if preflight.Ok? {
      var (installationId, pieces) := preflight.value;
      AdmitEffect(t, installationId, pieces, parseUuid, Trim(req.handle), Trim(req.name), SanitizeSecret(req.secret),
                  newActorId, updateId, now);
    }
  }

  /**
   * POST `actors` (signup). After the preflight checks, every piece of the
   * `Challenge-Response` header must be accepted; at least one accepted
   * property must be a phone number; then the actor is created, every
   * accepted property is given to it and made primary, and its secret is
   * recorded. The response carries the actor and the owned properties, one
   * per piece, in piece order. Nothing is undone when a later step fails.
   */
  method Signup(actors: ActorsService, props: ActorPropertiesService, headers: Headers,
                parseUuid: string -> Option<Uuid>, req: CreateUserAccount,
                newActorId: Uuid, updateId: Uuid, now: Instant)
    returns (r: Reply<SignupResult>)
    requires actors.Valid() && props.Valid()
    requires newActorId !in ActorIds(actors.actors)
    modifies actors, props
    ensures actors.Valid() && props.Valid()
    ensures Outcome(r, Tables(actors.actors, actors.secretUpdates, props.properties))
            == SignupOutcome(Tables(old(actors.actors), old(actors.secretUpdates), old(props.properties)),
                             headers, parseUuid, req, newActorId, updateId, now)
    ensures Preflight(headers, parseUuid, req).Err? ==>
              && r == Preflight(headers, parseUuid, req).error
              && actors.actors == old(actors.actors) && actors.secretUpdates == old(actors.secretUpdates)
              && props.properties == old(props.properties)
    ensures r.Created? ==>
              && Preflight(headers, parseUuid, req).Ok?
              && var (installationId, pieces) := Preflight(headers, parseUuid, req).value;
                 var owned := IdSet(r.data.properties);
                 && r.data.actor == SignupActor(newActorId, Trim(req.handle), Trim(req.name), SanitizeSecret(req.secret), now)
                 && actors.actors == old(actors.actors) + [r.data.actor]
                 && actors.secretUpdates == old(actors.secretUpdates) + [SecretUpdate(updateId, newActorId, r.data.actor.secret, now)]
                 && props.properties == OwnedRows(ValidatedRows(old(props.properties), owned), owned, newActorId)
                 && HasPhone(r.data.properties)
                 && PiecesOwned(r.data.properties, pieces, installationId, parseUuid, newActorId)
                 && (forall q :: q in r.data.properties ==> q in props.properties)
  {
    SignupEffect(Tables(actors.actors, actors.secretUpdates, props.properties), headers, parseUuid, req,
                 newActorId, updateId, now);
    var preflight := Preflight(headers, parseUuid, req);
    if preflight.Err? {
      return preflight.error;
    }
    var (installationId, pieces) := preflight.value;
    r := Admit(actors, props, installationId, pieces, parseUuid,
               Trim(req.handle), Trim(req.name), SanitizeSecret(req.secret), newActorId, updateId, now);
  }

  /** The piece loop followed by the enrolment steps. */
  method Admit(actors: ActorsService, props: ActorPropertiesService, installationId: Uuid, pieces: seq<string>,
               parseUuid: string -> Option<Uuid>, handle: string, name: string, secret: string,
               newActorId: Uuid, updateId: Uuid, now: Instant)
    returns (r: Reply<SignupResult>)
    requires actors.Valid() && props.Valid()
    requires newActorId !in ActorIds(actors.actors)
    modifies actors, props
    ensures actors.Valid() && props.Valid()
    ensures Outcome(r, Tables(actors.actors, actors.secretUpdates, props.properties))
            == AdmitOutcome(Tables(old(actors.actors), old(actors.secretUpdates), old(props.properties)),
                            installationId, pieces, parseUuid, handle, name, secret, newActorId, updateId, now)
  {
    var accepted := AcceptAll(props, installationId, pieces, parseUuid);
    if accepted.Err? {
      return accepted.error;
    }
    r := Enroll(actors, props, accepted.value, handle, name, secret, newActorId, updateId, now);
  }

  /**
   * The signup steps after every piece was accepted: the phone-number
   * rule, the actor insert, the index loop and the secret record.
   */
  method Enroll(actors: ActorsService, props: ActorPropertiesService, properties: seq<ActorProperty>,
                handle: string, name: string, secret: string, newActorId: Uuid, updateId: Uuid, now: Instant)
    returns (r: Reply<SignupResult>)
    requires actors.Valid() && props.Valid()
    requires newActorId !in ActorIds(actors.actors)
    modifies actors, props
    ensures actors.Valid() && props.Valid()
    ensures Outcome(r, Tables(actors.actors, actors.secretUpdates, props.properties))
            == EnrollOutcome(Tables(old(actors.actors), old(actors.secretUpdates), old(props.properties)),
                             properties, handle, name, secret, newActorId, updateId, now)
  {
    if !HasPhone(properties) {
      return Invalid(KeyChallengeResponse, ApiError.Required(None, Some("PhoneNo")));
    }
    var actor := actors.Create(handle, name, secret, newActorId, now);
    if actor.Err? {
      return Thrown(actor.error);
    }
    var owned := OwnAll(props, properties, actor.value.id);
    if owned.Err? {
      return owned.error;
    }
    assert ActorIds(actors.actors)[|actors.actors| - 1] == newActorId;
    var failure := actors.CreateSecretUpdate(actor.value.id, actor.value.secret, updateId, now);
    r := match failure
      case Some(f) => Thrown(f)
      case None => Created(SignupResult(actor.value, owned.value));
  }

  /** Where a property is created: during signup, or as a second factor. */
  datatype Scope = SignupScope | TwoFactor

  datatype CreateActorProperty = CreateActorProperty(content: string, type_: Option<PropertyType>, scope: Scope)

  /** The property type: the requested one, otherwise Email when the content has an '@', else PhoneNo. */
  function InferType(content: string, requested: Option<PropertyType>): (t: PropertyType)
    ensures requested.Some? ==> t == requested.value
    ensures requested.None? ==> (t == Email <==> '@' in content)
  {
    if requested.Some? then requested.value
    else if '@' in content then Email else PhoneNo
  }

  /**
   * POST `actors/properties`. In signup scope a content some undeleted
   * primary property already holds is a conflict; otherwise a fresh,
   * unowned, unvalidated property with the trimmed content and the given
   * six-digit code is stored for the request's installation.
   */
  method PostProperty(props: ActorPropertiesService, headers: Headers, parseUuid: string -> Option<Uuid>,
                      req: CreateActorProperty, code: nat, newId: Uuid, now: Instant)
    returns (r: Reply<ActorProperty>)
    requires props.Valid()
    requires CodeMin <= code < CodeMax
    requires newId !in PropertyIds(props.properties)
    modifies props
    ensures props.Valid()
    ensures r.Created? || r.Thrown? || r.Invalid?
    ensures !r.Created? ==> props.properties == old(props.properties)
    ensures InstallationIdHeader(headers, parseUuid).Err? ==> r == Thrown(InstallationIdHeader(headers, parseUuid).error)
    ensures r.Invalid? <==> && InstallationIdHeader(headers, parseUuid).Ok? && req.scope == SignupScope
                            && old(props.GetPrimaryByContent(Trim(req.content))).Some?
    ensures r.Invalid? ==> r == Invalid("content", ApiError.Conflict(Some(Text(Trim(req.content)))))
    ensures InstallationIdHeader(headers, parseUuid).Ok? && !r.Invalid? ==> (r.Created? <==> |Trim(req.content)| <= ContentColumn)
    ensures r.Created? ==>
              && props.properties == old(props.properties) + [r.data]
              && r.data.id == newId && r.data.installationId == InstallationIdHeader(headers, parseUuid).value
              && r.data.content == Trim(req.content) && r.data.type_ == InferType(Trim(req.content), req.type_)
              && r.data.actorId == None && !r.data.valid && r.data.primary == None
              && |r.data.verificationCode| == 6 && DecimalValue(r.data.verificationCode) == code
  {
    var installation := InstallationIdHeader(headers, parseUuid);
    if installation.Err? {
      return Thrown(installation.error);
    }
    var content := Trim(req.content);
    var type_ := InferType(content, req.type_);
    if req.scope == SignupScope && props.GetPrimaryByContent(content).Some? {
      return Invalid("content", ApiError.Conflict(Some(Text(content))));
    }
    var created := props.Create(installation.value, type_, content, code, newId, now);
    if created.Err? {
      return Thrown(created.error);
    }
    r := Created(created.value);
  }

  datatype CreateActorLink = CreateActorLink(actorId: Option<Uuid>, peerId: Uuid, perm: Perm)

  /** The actor a link request is for: the one named, else the caller. */
  function LinkActor(req: CreateActorLink, selfId: Uuid): (a: Uuid)
    ensures req.actorId.None? ==> a == selfId
    ensures req.actorId.Some? ==> a == req.actorId.value
  {
    if req.actorId.Some? then req.actorId.value else selfId
  }

  /** POST `actors/links` as written: the creator column is never set, so the insert always throws. */
  method PostLinkAsWritten(actors: ActorsService, links: ActorLinksService, selfId: Uuid, req: CreateActorLink,
                           newId: Uuid, now: Instant)
    returns (r: Reply<ActorLink>)
    requires links.Valid()
    requires newId !in RowIds(links.rows)
    modifies links
    ensures links.Valid()
    ensures r.Thrown? && links.rows == old(links.rows)
  {
    var link := links.CreateAsWritten(LinkActor(req, selfId), req.peerId, newId, now, ActorIds(actors.actors));
    r := match link
      case Ok(l) => Created(l)
      case Err(e) => Thrown(e);
  }

  /**
   * POST `actors/links` with the creator recorded as the caller: an
   * invitation from the named actor (or the caller) to the peer; the
   * requested permission is not used. The insert throws when the linking
   * actor, the peer or the caller is not in the actor table, or when the
   * pair is already linked.
   */
  method PostLink(actors: ActorsService, links: ActorLinksService, selfId: Uuid, req: CreateActorLink,
                  newId: Uuid, now: Instant)
    returns (r: Reply<ActorLink>)
    requires links.Valid()
    requires newId !in RowIds(links.rows)
    modifies links
    ensures links.Valid()
    ensures r.Created? || r.Thrown?
    ensures r.Thrown? <==> || LinkActor(req, selfId) !in ActorIds(actors.actors)
                           || req.peerId !in ActorIds(actors.actors)
                           || selfId !in ActorIds(actors.actors)
                           || Linked(old(links.rows), LinkActor(req, selfId), req.peerId)
    ensures r.Thrown? ==> links.rows == old(links.rows)
    ensures r.Created? ==> r.data == ActorLink(LinkActor(req, selfId), req.peerId, Invited, now, selfId, None)
    ensures r.Created? ==> links.rows == old(links.rows) + [NewRow(LinkActor(req, selfId), req.peerId, selfId, newId, now)]
  {
    var link := links.Create(LinkActor(req, selfId), req.peerId, selfId, newId, now, ActorIds(actors.actors));
    if link.Err? {
      return Thrown(link.error);
    }
    r := Created(link.value);
  }

  /**
   * GET `actors/{id}`: the path id must parse (else the parse exception
   * propagates); then the actor with that id (deleted or not), else a
   * Reference error on "id".
   */
  method GetActor(actors: ActorsService, idText: string, parseUuid: string -> Option<Uuid>) returns (r: Reply<Actor>)
    requires actors.Valid()
    ensures r.Fetched? || r.Invalid? || r.Thrown?
    ensures r.Thrown? <==> parseUuid(idText).None?
    ensures r.Thrown? ==> r == Thrown(InvalidUuid)
    ensures parseUuid(idText).Some? ==>
              var id := parseUuid(idText).value;
              && (r.Invalid? <==> id !in ActorIds(actors.actors))
              && (r.Invalid? ==> r == Invalid("id", ApiError.Reference(Some(Id(id)))))
              && (r.Fetched? ==> r.data in actors.actors && r.data.id == id)
  {
    var id := parseUuid(idText);
    if id.None? {
      return Thrown(InvalidUuid);
    }
    var actor := actors.Get(id.value);
    if actor.None? {
      return Invalid("id", ApiError.Reference(Some(Id(id.value))));
    }
    r := Fetched(actor.value);
  }

  /**
   * The actors that rows of the other tables refer to: installation links
   * and auth sessions by their actor, properties by their owner, contact
   * links by actor, peer and creator, messages by sender and recipient,
   * and message packets by recipient.
   */
  function ActorReferrers(installationLinks: seq<Installations.InstallationLink>, properties: seq<ActorProperty>,
                          contactLinks: seq<LinkRow>, sessions: seq<AuthSessions.SessionRow>,
                          messages: seq<Messages.MessageRow>, packets: seq<Messages.PacketRow>): (r: set<Uuid>)
    ensures forall l :: l in installationLinks ==> l.actorId in r
    ensures forall p :: p in properties && p.actorId.Some? ==> p.actorId.value in r
    ensures forall x :: x in contactLinks ==> x.actorId in r && x.peerId in r
    ensures forall x :: x in contactLinks && x.createdBy.Some? ==> x.createdBy.value in r
    ensures forall t :: t in sessions ==> t.actorId in r
    ensures forall m :: m in messages ==> m.fromId in r && m.rcptId in r
    ensures forall k :: k in packets ==> k.rcptId in r
    ensures forall id :: id in r ==>
              || (exists l :: l in installationLinks && l.actorId == id)
              || (exists p :: p in properties && p.actorId == Some(id))
              || (exists x :: x in contactLinks && (x.actorId == id || x.peerId == id || x.createdBy == Some(id)))
              || (exists t :: t in sessions && t.actorId == id)
              || (exists m :: m in messages && (m.fromId == id || m.rcptId == id))
              || (exists k :: k in packets && k.rcptId == id)
  {
    (set l | l in installationLinks :: l.actorId)
    + (set p | p in properties && p.actorId.Some? :: p.actorId.value)
    + (set x | x in contactLinks :: x.actorId) + (set x | x in contactLinks :: x.peerId)
    + (set x | x in contactLinks && x.createdBy.Some? :: x.createdBy.value)
    + (set t | t in sessions :: t.actorId)
    + (set m | m in messages :: m.fromId) + (set m | m in messages :: m.rcptId)
    + (set k | k in packets :: k.rcptId)
  }

  /**
   * DELETE `actors/{id}`: the path id must parse; then 200 when the actor
   * existed and was removed, 422 when there was none. Removing an actor
   * that a secret update or a row of another table still refers to
   * violates that foreign key and the exception propagates.
   */
  method DeleteActor(actors: ActorsService, installations: Installations.InstallationsService,
                     props: ActorPropertiesService, links: ActorLinksService,
                     sessions: AuthSessions.AuthSessionsService, store: Messages.MessagesService,
                     idText: string, parseUuid: string -> Option<Uuid>) returns (r: Reply<Actor>)
    requires actors.Valid()
    modifies actors
    ensures actors.Valid()
    ensures actors.secretUpdates == old(actors.secretUpdates)
    ensures r == Bare(200) || r == Bare(422) || r.Thrown?
    ensures parseUuid(idText).None? ==> r == Thrown(InvalidUuid)
    ensures parseUuid(idText).Some? ==>
              var id := parseUuid(idText).value;
              var others := ActorReferrers(installations.links, props.properties, links.rows, sessions.sessions,
                                           store.messages, store.packets);
              && (r == Bare(422) <==> id !in ActorIds(old(actors.actors)))
              && (r.Thrown? <==> id in ActorIds(old(actors.actors))
                                 && (Referenced(old(actors.secretUpdates), id) || id in others))
              && (r == Bare(200) ==> exists i :: 0 <= i < |old(actors.actors)| && old(actors.actors)[i].id == id
                                               && actors.actors == old(actors.actors)[..i] + old(actors.actors)[i + 1..])
    ensures r != Bare(200) ==> actors.actors == old(actors.actors)
  {
    var id := parseUuid(idText);
    if id.None? {
      return Thrown(InvalidUuid);
    }
    var others := ActorReferrers(installations.links, props.properties, links.rows, sessions.sessions,
                                 store.messages, store.packets);
    var deleted := actors.Delete(id.value, others);
    r := match deleted
      case Err(e) => Thrown(e)
      case Ok(true) => Bare(200)
      case Ok(false) => Bare(422);
  }

  /**
   * GET `actors/by-handle/{handle}`: the undeleted actor whose handle is the
   * sanitised parameter; a missing parameter is Required, an unknown handle
   * a Reference error, both on "handle".
   */
  method GetActorByHandle(actors: ActorsService, handle: Option<string>) returns (r: Reply<Actor>)
    requires actors.Valid()
    ensures r.Fetched? || r.Invalid?
    ensures handle.None? ==> r == Invalid("handle", ApiError.Required(None, None))
    ensures handle.Some? ==> (r.Invalid? <==> !HandleTaken(actors.actors, SanitizeHandle(handle.value)))
    ensures handle.Some? && r.Invalid? ==> r == Invalid("handle", ApiError.Reference(Some(Text(handle.value))))
    ensures r.Fetched? ==> && handle.Some? && r.data in actors.actors
                           && r.data.handle == SanitizeHandle(handle.value) && r.data.deletedAt == None
  {
    if handle.None? {
      return Invalid("handle", ApiError.Required(None, None));
    }
    var actor := actors.GetByHandle(handle.value);
    if actor.None? {
      return Invalid("handle", ApiError.Reference(Some(Text(handle.value))));
    }
    r := Fetched(actor.value);
  }
}
