/**
 * The field-level error descriptions the signup route attaches to its
 * rejections (`ApiError`); every field is optional, as in the source.
 */
module ApiErrors {
  import opened Common

  /** A reported value: either text or an identifier printed as text. */
  datatype Value = Text(text: string) | Id(id: Uuid)

  datatype ApiError =
    | Size(value: Option<Value>, min: Option<int>, max: Option<int>, size: Option<int>)
    | Required(value: Option<Value>, category: Option<string>)
    | Schema(value: Option<Value>, schema: Option<string>)
    | Forbidden(value: Option<Value>, property: Option<string>, auth: Option<string>)
    | Reference(value: Option<Value>)
    | Conflict(value: Option<Value>)
    | State(value: Option<Value>)
    | Internal(value: Option<Value>, entity: Option<string>, property: Option<string>)
    | Unauthenticated
}

/**
 * Request/response helpers shared by the routes: the response code
 * vocabulary, the two validation exceptions and their convenience
 * constructors, `headerOrFail`, and the success envelope.
 */
module Api {
  import opened Common
  import opened Text
  import opened ApiErrors

  const KeyInstallationID := "Installation-Id"
  const KeyChallengeResponse := "Challenge-Response"

  /** The machine-readable response codes. */
  datatype Code = OK | Schema | Constraint | Conflict | Required | Reference
                | Unauthenticated | Forbidden | Expired | Signature | Internal

  /** A per-field status; `raw`, `parsed` and `constraints` are never set in the core. */
  datatype Status = Status(code: Code, error: Option<string>)

  /** One named field of an exception and its value (always null in the core). */
  type Field = (string, Option<string>)

  /** The exceptions a route may throw; StatusPages turns them into responses. */
  datatype Failure =
    | ValidationException(code: Code, fields: seq<Field>)
    | ValidationException2(status: Status, fields: seq<Field>)
    | EntityNotFoundException
    | OtherThrowable(description: string)

  /**
   * What a route ends with: a 201 with data, a 200 with data, a status with
   * an empty body, a thrown exception, or one of the actor routes' field
   * rejections (`ValidationException(field, ApiError)`, a constructor
   * api.kt lacks).
   */
  datatype Reply<+T> =
    | Created(data: T)
    | Fetched(data: T)
    | Bare(status: int)
    | Thrown(failure: Failure)
    | Invalid(field: string, error: ApiError)

  /** The names of a field list, in order. */
  function FieldNames(fields: seq<Field>): (r: seq<string>)
    ensures |r| == |fields|
  {
    seq(|fields|, i requires 0 <= i < |fields| => fields[i].0)
  }

  /** Pairs every name with null. */
  function NullFields(names: seq<string>): (r: seq<Field>)
    ensures FieldNames(r) == names
    ensures forall f :: f in r ==> f.1 == None
  {
    seq(|names|, i requires 0 <= i < |names| => (names[i], None))
  }

  /** `ValidationException(code, vararg fieldNames)`. */
  function Validation(code: Code, names: seq<string>): (e: Failure)
    ensures e.ValidationException? && e.code == code
    ensures FieldNames(e.fields) == names
    ensures forall f :: f in e.fields ==> f.1 == None
  {
    ValidationException(code, NullFields(names))
  }

  /** `ValidationException(code)`: no fields at all. */
  function ValidationCode(code: Code): (e: Failure)
    ensures e.ValidationException? && e.code == code && e.fields == []
  {
    Validation(code, [])
  }

  /** `ValidationException2(status, vararg fieldNames)`. */
  function Validation2(status: Status, names: seq<string>): (e: Failure)
    ensures e.ValidationException2? && e.status == status
    ensures FieldNames(e.fields) == names
    ensures forall f :: f in e.fields ==> f.1 == None
  {
    ValidationException2(status, NullFields(names))
  }

  /**
   * Request headers: the values sent, in order, under the lower-cased
   * header name. Ktor, like HTTP, matches header names without regard to
   * letter case, so every lookup lowers the name it asks for.
   */
  type Headers = h: map<string, seq<string>> | forall name :: name in h ==> Lower(name) == name
    witness map[]

  /** `headers.getAll(name)`: every value sent under any letter case of the name, or null. */
  function HeaderValues(headers: Headers, name: string): (r: Option<seq<string>>)
    ensures r.Some? <==> Lower(name) in headers
    ensures r.Some? ==> r.value == headers[Lower(name)]
  {
    if Lower(name) in headers then Some(headers[Lower(name)]) else None
  }

  /** Names that differ only in letter case find the same values. */
  lemma HeaderNameCase(headers: Headers, a: string, b: string)
    requires CaseVariant(a, b)
    ensures HeaderValues(headers, a) == HeaderValues(headers, b)
  {
    assert Lower(a) == Lower(b);
  }

  /** `headers[name] ?: throw ValidationException(Required, name)`: the first value, or Required. */
  function HeaderOrFail(headers: Headers, name: string): (r: Result<string, Failure>)
    ensures r.Ok? <==> HeaderValues(headers, name).Some? && HeaderValues(headers, name).value != []
    ensures r.Ok? ==> r.value == HeaderValues(headers, name).value[0]
    ensures r.Err? ==> r.error.ValidationException? && r.error.code == Code.Required
                       && FieldNames(r.error.fields) == [name]
  {
    match HeaderValues(headers, name)
    case Some(values) => if values != [] then Ok(values[0]) else Err(Validation(Code.Required, [name]))
    case None => Err(Validation(Code.Required, [name]))
  }

  /**
   * `UUID.fromString(headerOrFail(Installation-Id))`: the header's first
   * value parsed as a UUID; a missing header is a Required failure and an
   * unparsable one an IllegalArgumentException (a 500).
   */
  function InstallationIdHeader(headers: Headers, parseUuid: string -> Option<Uuid>): (r: Result<Uuid, Failure>)
    ensures r.Ok? <==> HeaderOrFail(headers, KeyInstallationID).Ok? && parseUuid(HeaderOrFail(headers, KeyInstallationID).value).Some?
    ensures r.Ok? ==> Some(r.value) == parseUuid(HeaderOrFail(headers, KeyInstallationID).value)
    ensures HeaderOrFail(headers, KeyInstallationID).Err? ==> r == Err(HeaderOrFail(headers, KeyInstallationID).error)
    ensures HeaderOrFail(headers, KeyInstallationID).Ok? && r.Err? ==> r.error == InvalidUuid
  {
    var h := HeaderOrFail(headers, KeyInstallationID);
    if h.Err? then Err(h.error)
    else match parseUuid(h.value)
      case None => Err(InvalidUuid)
      case Some(id) => Ok(id)
  }

  /** What `UUID.fromString` throws on text that is not a UUID. */
  const InvalidUuid := OtherThrowable("IllegalArgumentException: invalid UUID string")

  /** The success envelope. */
  datatype ApiSuccessResponse<+T> = ApiSuccessResponse(code: Code, count: Option<int>, data: T)

  /** `ApiSuccessResponse(data = ..)`: code defaults to OK and count to null. */
  function Success<T>(data: T): (r: ApiSuccessResponse<T>)
    ensures r.code == Code.OK && r.count == None && r.data == data
  {
    ApiSuccessResponse(Code.OK, None, data)
  }
}

/**
 * The StatusPages handler: every exception a route throws is turned into
 * an HTTP status and an error body.
 */
module Administration {
  import opened Common
  import opened Api

  /** `Map<String, Array<Status>>`. */
  type Errors = map<string, seq<Status>>

  datatype ApiErrorResponse = ApiErrorResponse(code: Code, errors: Option<Errors>)

  /** A JSON error body with its status, or the plain-text 500 response. */
  datatype ErrorReply = JsonError(status: int, body: ApiErrorResponse) | TextError(status: int, text: string)

  const UnprocessableEntity := 422
  const InternalServerError := 500

  /**
   * `fields.associateBy({ it.first }, { v })`: one key per distinct field
   * name, later duplicates overwriting earlier ones.
   */
  function AssociateBy(fields: seq<Field>, v: seq<Status>): (m: Errors)
    ensures m.Keys == Elements(FieldNames(fields))
    ensures forall k :: k in m ==> m[k] == v
  {
    if fields == [] then map[]
    else
      var init := fields[..|fields| - 1];
      assert FieldNames(fields) == FieldNames(init) + [fields[|fields| - 1].0];
      AssociateBy(init, v)[fields[|fields| - 1].0 := v]
  }

  /** The response StatusPages sends for an uncaught exception. */
  function HandleException(cause: Failure): (r: ErrorReply)
    ensures cause.EntityNotFoundException? ==>
              r == JsonError(UnprocessableEntity, ApiErrorResponse(Code.Reference, None))
    ensures cause.ValidationException? ==>
              && r.JsonError? && r.status == UnprocessableEntity && r.body.code == cause.code
              && r.body.errors.Some?
              && r.body.errors.value.Keys == Elements(FieldNames(cause.fields))
              && forall k :: k in r.body.errors.value ==> r.body.errors.value[k] == [Status(cause.code, None)]
    ensures cause.ValidationException2? ==>
              && r.JsonError? && r.status == UnprocessableEntity && r.body.code == cause.status.code
              && r.body.errors.Some?
              && r.body.errors.value.Keys == Elements(FieldNames(cause.fields))
              && forall k :: k in r.body.errors.value ==> r.body.errors.value[k] == [cause.status]
    ensures cause.OtherThrowable? ==> r.TextError? && r.status == InternalServerError
  {
    match cause
    case EntityNotFoundException => JsonError(UnprocessableEntity, ApiErrorResponse(Code.Reference, None))
    case ValidationException(code, fields) =>
      JsonError(UnprocessableEntity, ApiErrorResponse(code, Some(AssociateBy(fields, [Status(code, None)]))))
    case ValidationException2(status, fields) =>
      JsonError(UnprocessableEntity, ApiErrorResponse(status.code, Some(AssociateBy(fields, [status]))))
    case OtherThrowable(description) => TextError(InternalServerError, "500: " + description)
  }

  /**
   * A ValidationException built from names yields an errors map with
   * exactly those names as keys, each mapped to `[Status(code)]`; with
   * a repeated name the map has fewer keys than names were given.
   */
  lemma ValidationResponseKeys(code: Code, names: seq<string>)
    ensures var r := HandleException(Validation(code, names));
            && r.status == UnprocessableEntity && r.body.errors.Some?
            && r.body.errors.value.Keys == Elements(names)
            && (forall k :: k in r.body.errors.value ==> r.body.errors.value[k] == [Status(code, None)])
            && (|r.body.errors.value| == |names| <==> Distinct(names))
  {
    ElementsSize(names);
  }

  /** A ValidationException with no fields still carries an (empty) errors map. */
  lemma CodeOnlyResponse(code: Code)
    ensures HandleException(ValidationCode(code)) ==
            JsonError(UnprocessableEntity, ApiErrorResponse(code, Some(map[])))
  {
  }
}
