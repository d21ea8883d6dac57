/**
 * Actor properties: phone numbers and e-mail addresses that an
 * installation registers during signup, proves with a 6-digit code, and
 * that signup then hands to the new actor as primary. A content string
 * may be held by at most one valid, primary, undeleted property.
 */
module ActorProperties {
  import opened Common
  import opened Text
  import opened Api

  datatype PropertyType = PhoneNo | Email

  datatype ActorProperty = ActorProperty(
    id: Uuid, actorId: Option<Uuid>, installationId: Uuid, type_: PropertyType, content: string,
    verificationCode: string, valid: bool, primary: Option<bool>,
    createdAt: Instant, deletedAt: Option<Instant>)

  /** Varchar lengths of the property table. */
  const ContentColumn := 125
  const VerificationCodeColumn := 25

  /** The bounds of the verification code draw, `[min, max)`. */
  const CodeMin := 100000
  const CodeMax := 1000000

  /** The ids of the property table, in order. */
  function PropertyIds(props: seq<ActorProperty>): (r: seq<Uuid>)
    ensures |r| == |props|
  {
    seq(|props|, i requires 0 <= i < |props| => props[i].id)
  }

  /** A row the partial unique index on content covers: valid, primary and undeleted. */
  predicate Indexed(p: ActorProperty)
  {
    p.valid && p.primary == Some(true) && p.deletedAt == None
  }

  /** The partial unique index: indexed rows have distinct contents. */
  ghost predicate ContentUnique(props: seq<ActorProperty>)
  {
    forall i, j :: 0 <= i < j < |props| && Indexed(props[i]) && Indexed(props[j]) ==>
      props[i].content != props[j].content
  }

  /** Putting `row` at position `i` would give the index two rows with one content. */
  predicate ClashesAt(props: seq<ActorProperty>, i: nat, row: ActorProperty)
  {
    Indexed(row) && exists j :: 0 <= j < |props| && j != i && Indexed(props[j]) && props[j].content == row.content
  }

  /** The texts fit their varchar columns. */
  predicate FitsColumns(p: ActorProperty)
  {
    |p.content| <= ContentColumn && |p.verificationCode| <= VerificationCodeColumn
  }

  /** The position of the row with this id, deleted or not (`findById`). */
  function IndexOfId(props: seq<ActorProperty>, id: Uuid): (r: Option<nat>)
    ensures r.Some? ==> r.value < |props| && props[r.value].id == id
    ensures r.None? <==> id !in PropertyIds(props)
  {
    if props == [] then None
    else if props[0].id == id then
      assert PropertyIds(props)[0] == id;
      Some(0)
    else
      var rest := IndexOfId(props[1..], id);
      assert PropertyIds(props) == [props[0].id] + PropertyIds(props[1..]);
      if rest.None? then None else Some(rest.value + 1)
  }

  /** The row `validateProperty` writes. */
  function Validated(p: ActorProperty): (r: ActorProperty)
    ensures r.valid
  {
    p.(valid := true)
  }

  /** The row `ownAndPrimarizeProperty` writes. */
  function OwnedPrimary(p: ActorProperty, actorId: Uuid): (r: ActorProperty)
    ensures r.actorId == Some(actorId) && r.primary == Some(true)
  {
    p.(actorId := Some(actorId), primary := Some(true))
  }

  /** A six-digit verification code. */
  lemma {:induction false} CodeHasSixDigits(code: nat)
    requires CodeMin <= code < CodeMax
    ensures |DecimalString(code)| == 6
    ensures DecimalValue(DecimalString(code)) == code
  {
    assert Pow10(5) == CodeMin && Pow10(6) == CodeMax;
    DecimalLength(code, 6);
    DecimalRoundTrip(code);
  }

  /** Only `ownAndPrimarizeProperty` sets `primary`, and it sets the owner with it. */
  predicate PrimaryOwned(p: ActorProperty)
  {
    p.primary == Some(true) ==> p.actorId.Some?
  }

  /**
   * The property table's invariant: unique ids, the content index, every
   * row fits its columns, and a primary row has an owner.
   */
  ghost predicate Consistent(props: seq<ActorProperty>)
  {
    && Distinct(PropertyIds(props))
    && ContentUnique(props)
    && (forall p :: p in props ==> FitsColumns(p) && PrimaryOwned(p))
  }

  /** The undeleted row with this id (the query of `get`). */
  function LiveById(props: seq<ActorProperty>, id: Uuid): (r: Option<ActorProperty>)
    ensures r.Some? ==> r.value in props && r.value.id == id && r.value.deletedAt == None
    ensures r.None? <==> forall p :: p in props && p.id == id ==> p.deletedAt.Some?
  {
    First(props, (p: ActorProperty) => p.id == id && p.deletedAt == None)
  }

  /** What a `findByIdAndUpdate` call returns, and the table it leaves. */
  datatype Update = Update(result: Result<Option<ActorProperty>, Failure>, table: seq<ActorProperty>)

  const VarcharOverflow := OtherThrowable("value exceeds the length of its varchar column")
  const ContentTaken := OtherThrowable("unique index violation on actor property content")

  /**
   * Writing `row` at position `i`: the update throws when the row does not
   * fit its columns or would give the content index a second row.
   */
  function Write(props: seq<ActorProperty>, i: nat, row: ActorProperty): (u: Update)
    requires i < |props|
    ensures u.result.Err? <==> !FitsColumns(row) || ClashesAt(props, i, row)
    ensures u.result.Err? ==> u.table == props
    ensures u.result.Ok? ==> u.result == Ok(Some(row)) && u.table == props[i := row]
  {
    if !FitsColumns(row) then Update(Err(VarcharOverflow), props)
    else if ClashesAt(props, i, row) then Update(Err(ContentTaken), props)
    else Update(Ok(Some(row)), props[i := row])
  }

  /** `validateProperty` on a table. */
  function ValidateIn(props: seq<ActorProperty>, id: Uuid): Update
  {
    match IndexOfId(props, id)
    case None => Update(Ok(None), props)
    case Some(i) => Write(props, i, Validated(props[i]))
  }

  /** `ownAndPrimarizeProperty` on a table. */
  function OwnIn(props: seq<ActorProperty>, id: Uuid, actorId: Uuid): Update
  {
    match IndexOfId(props, id)
    case None => Update(Ok(None), props)
    case Some(i) => Write(props, i, OwnedPrimary(props[i], actorId))
  }

  /** A write the table admits keeps it consistent. */
  lemma WriteKeepsConsistent(props: seq<ActorProperty>, i: nat, row: ActorProperty)
    requires Consistent(props)
    requires i < |props| && row.id == props[i].id && PrimaryOwned(row)
    requires Write(props, i, row).result.Ok?
    ensures Consistent(props[i := row])
  {
    var next := props[i := row];
    assert PropertyIds(next) == PropertyIds(props);
    forall j, k | 0 <= j < k < |next| && Indexed(next[j]) && Indexed(next[k])
      ensures next[j].content != next[k].content
    {
      if j != i && k != i {
        assert next[j] == props[j] && next[k] == props[k];
      }
    }
    forall p | p in next
      ensures FitsColumns(p) && PrimaryOwned(p)
    {
      var k :| 0 <= k < |next| && next[k] == p;
      if k != i {
        assert props[k] in props;
      }
    }
  }

  /**
   * Validating an unowned row never throws: it is not primary, so the
   * validated row is outside the content index.
   */
  lemma ValidatingUnownedSucceeds(props: seq<ActorProperty>, i: nat)
    requires Consistent(props)
    requires i < |props| && props[i].actorId.None?
    ensures Write(props, i, Validated(props[i])) == Update(Ok(Some(Validated(props[i]))), props[i := Validated(props[i])])
  {
    assert props[i] in props;
  }

  /** With unique ids the row with a given id sits at one position only. */
  lemma SameIdSamePosition(props: seq<ActorProperty>, i: nat, j: nat)
    requires Distinct(PropertyIds(props))
    requires i < |props| && j < |props| && props[i].id == props[j].id
    ensures i == j
  {
    assert PropertyIds(props)[i] == PropertyIds(props)[j];
  }

  /** The ids of some properties, as a set. */
  function IdSet(qs: seq<ActorProperty>): (r: set<Uuid>)
    ensures forall q :: q in qs ==> q.id in r
  {
    set q | q in qs :: q.id
  }

  /** The table after every row whose id is in `ids` was validated. */
  function ValidatedRows(props: seq<ActorProperty>, ids: set<Uuid>): (r: seq<ActorProperty>)
    ensures |r| == |props| && PropertyIds(r) == PropertyIds(props)
  {
    var r := seq(|props|, i requires 0 <= i < |props| => if props[i].id in ids then Validated(props[i]) else props[i]);
    assert PropertyIds(r) == PropertyIds(props);
    r
  }

  /** The table after every row whose id is in `ids` was given to the actor and made primary. */
  function OwnedRows(props: seq<ActorProperty>, ids: set<Uuid>, actorId: Uuid): (r: seq<ActorProperty>)
    ensures |r| == |props| && PropertyIds(r) == PropertyIds(props)
  {
    var r := seq(|props|, i requires 0 <= i < |props| =>
                            if props[i].id in ids then OwnedPrimary(props[i], actorId) else props[i]);
    assert PropertyIds(r) == PropertyIds(props);
    r
  }

  /** Validating no row leaves the table as it is. */
  lemma ValidatedRowsNone(props: seq<ActorProperty>)
    ensures ValidatedRows(props, {}) == props
  {
  }

  /** Owning no row leaves the table as it is. */
  lemma OwnedRowsNone(props: seq<ActorProperty>, actorId: Uuid)
    ensures OwnedRows(props, {}, actorId) == props
  {
  }

  /** Validating one row is a single write. */
  lemma ValidatedRowsOne(props: seq<ActorProperty>, i: nat)
    requires Distinct(PropertyIds(props)) && i < |props|
    ensures props[i := Validated(props[i])] == ValidatedRows(props, {props[i].id})
  {
    forall j | 0 <= j < |props| && j != i
      ensures props[j].id != props[i].id
    {
      if props[j].id == props[i].id {
        SameIdSamePosition(props, i, j);
      }
    }
  }

  /** Owning one row is a single write. */
  lemma OwnedRowsOne(props: seq<ActorProperty>, i: nat, actorId: Uuid)
    requires Distinct(PropertyIds(props)) && i < |props|
    ensures props[i := OwnedPrimary(props[i], actorId)] == OwnedRows(props, {props[i].id}, actorId)
  {
    forall j | 0 <= j < |props| && j != i
      ensures props[j].id != props[i].id
    {
      if props[j].id == props[i].id {
        SameIdSamePosition(props, i, j);
      }
    }
  }

  /** Validating twice is validating the union: a validated row stays as it is. */
  lemma ValidatedRowsTwice(props: seq<ActorProperty>, a: set<Uuid>, b: set<Uuid>)
    ensures ValidatedRows(ValidatedRows(props, a), b) == ValidatedRows(props, a + b)
  {
  }

  /** A row, or its owned form, is still there in one form or the other after owning. */
  lemma OwnedRowsKeep(props: seq<ActorProperty>, ids: set<Uuid>, actorId: Uuid, q: ActorProperty)
    requires q in props || OwnedPrimary(q, actorId) in props
    ensures q in OwnedRows(props, ids, actorId) || OwnedPrimary(q, actorId) in OwnedRows(props, ids, actorId)
  {
    var k :| 0 <= k < |props| && (props[k] == q || props[k] == OwnedPrimary(q, actorId));
    assert OwnedRows(props, ids, actorId)[k] in OwnedRows(props, ids, actorId);
  }

  /** The position of a row that is the property or its owned form; owning it gives the owned property. */
  lemma RowOf(props: seq<ActorProperty>, q: ActorProperty, actorId: Uuid) returns (i: nat)
    requires q in props || OwnedPrimary(q, actorId) in props
    ensures i < |props| && props[i].id == q.id && PropertyIds(props)[i] == q.id
    ensures OwnedPrimary(props[i], actorId) == OwnedPrimary(q, actorId)
  {
    i :| 0 <= i < |props| && (props[i] == q || props[i] == OwnedPrimary(q, actorId));
    if props[i] != q {
      assert OwnedPrimary(q, actorId).id == q.id;
    }
  }

  /** Owning twice is owning the union: an owned row stays as it is. */
  lemma OwnedRowsTwice(props: seq<ActorProperty>, a: set<Uuid>, b: set<Uuid>, actorId: Uuid)
    ensures OwnedRows(OwnedRows(props, a, actorId), b, actorId) == OwnedRows(props, a + b, actorId)
  {
  }

  /** The property table. */
  class ActorPropertiesService {
    var properties: seq<ActorProperty>

    ghost predicate Valid()
      reads this
    {
      Consistent(properties)
    }

    constructor ()
      ensures Valid() && properties == []
    {
      properties := [];
    }

    /** `get`: the undeleted property with this id. */
    function Get(id: Uuid): (r: Option<ActorProperty>)
      reads this
      ensures r.Some? ==> r.value in properties && r.value.id == id && r.value.deletedAt == None
      ensures r.None? <==> forall p :: p in properties && p.id == id ==> p.deletedAt.Some?
    {
      LiveById(properties, id)
    }

    /** `list`: the actor's undeleted properties, in table order. */
    function List(actorId: Uuid): (r: seq<ActorProperty>)
      reads this
      ensures forall p :: p in r ==> p in properties && p.actorId == Some(actorId) && p.deletedAt == None
      ensures forall p :: p in properties && p.actorId == Some(actorId) && p.deletedAt == None ==> p in r
    {
      Filter(properties, (p: ActorProperty) => p.actorId == Some(actorId) && p.deletedAt == None)
    }

    /** `getPrimaryByContent`: an undeleted primary property with exactly this content; `valid` is not consulted. */
    function GetPrimaryByContent(content: string): (r: Option<ActorProperty>)
      reads this
      ensures r.Some? ==> r.value in properties && r.value.primary == Some(true)
                          && r.value.content == content && r.value.deletedAt == None
      ensures r.None? <==> forall p :: p in properties ==>
                             !(p.primary == Some(true) && p.content == content && p.deletedAt == None)
    {
      First(properties, (p: ActorProperty) => p.primary == Some(true) && p.content == content && p.deletedAt == None)
    }

    /**
     * `create`: a fresh, unowned, not yet valid, non-primary property whose
     * verification code is the decimal form of a draw from [100000, 1000000).
     * A content longer than its column makes the insert throw.
     */
    method Create(installationId: Uuid, type_: PropertyType, content: string, code: nat, newId: Uuid, now: Instant)
      returns (r: Result<ActorProperty, Failure>)
      requires Valid()
      requires CodeMin <= code < CodeMax
      requires newId !in PropertyIds(properties)
      modifies this
      ensures Valid()
      ensures r.Err? <==> |content| > ContentColumn
      ensures r.Err? ==> properties == old(properties)
      ensures r.Ok? ==> && properties == old(properties) + [r.value]
                        && r.value.id == newId && r.value.installationId == installationId
                        && r.value.type_ == type_ && r.value.content == content
                        && r.value.actorId == None && !r.value.valid && r.value.primary == None
                        && r.value.createdAt == now && r.value.deletedAt == None
                        && |r.value.verificationCode| == 6
                        && DecimalValue(r.value.verificationCode) == code
    {
      CodeHasSixDigits(code);
      var p := ActorProperty(newId, None, installationId, type_, content, DecimalString(code), false, None, now, None);
      if !FitsColumns(p) {
        return Err(VarcharOverflow);
      }
      assert PropertyIds(properties + [p]) == PropertyIds(properties) + [newId];
      properties := properties + [p];
      r := Ok(p);
    }

    /**
     * Overwrites row `i` with `row` (same id); the update throws when the
     * new row would break the content index or not fit its columns.
     */
    method Replace(i: nat, row: ActorProperty) returns (r: Result<ActorProperty, Failure>)
      requires Valid()
      requires i < |properties| && row.id == properties[i].id && PrimaryOwned(row)
      modifies this
      ensures Valid()
      ensures r.Err? <==> ClashesAt(old(properties), i, row) || !FitsColumns(row)
      ensures r.Err? ==> properties == old(properties)
      ensures r.Ok? ==> r.value == row && properties == old(properties)[i := row]
      ensures Write(old(properties), i, row) == Update(if r.Ok? then Ok(Some(r.value)) else Err(r.error), properties)
    {
      if !FitsColumns(row) {
        return Err(VarcharOverflow);
      }
      if ClashesAt(properties, i, row) {
        return Err(ContentTaken);
      }
      WriteKeepsConsistent(properties, i, row);
      properties := properties[i := row];
      r := Ok(row);
    }

    /**
     * `validateProperty`: sets `valid` on the row with this id (deleted or
     * not); null for an unknown id; on an already valid row nothing changes.
     * The update throws only when the row is owned, primary and its content
     * already held by another valid primary row.
     */
    method ValidateProperty(id: Uuid) returns (r: Result<Option<ActorProperty>, Failure>)
      requires Valid()
      modifies this
      ensures Valid()
      ensures Update(r, properties) == ValidateIn(old(properties), id)
      ensures r == Ok(None) <==> id !in PropertyIds(old(properties))
      ensures r.Err? || r == Ok(None) ==> properties == old(properties)
      ensures r.Err? ==> exists i :: 0 <= i < |old(properties)| && old(properties)[i].id == id
                                     && old(properties)[i].actorId.Some?
                                     && ClashesAt(old(properties), i, Validated(old(properties)[i]))
      ensures r.Ok? && r.value.Some? ==>
                exists i :: 0 <= i < |old(properties)| && old(properties)[i].id == id
                  && r.value.value == Validated(old(properties)[i])
                  && properties == old(properties)[i := r.value.value]
                  && (old(properties)[i].valid ==> properties == old(properties))
    {
      var at := IndexOfId(properties, id);
      if at.None? {
        return Ok(None);
      }
      var i := at.value;
      assert properties[i] in properties;
      var updated := Replace(i, Validated(properties[i]));
      if updated.Err? {
        return Err(updated.error);
      }
      r := Ok(Some(updated.value));
    }

    /**
     * `ownAndPrimarizeProperty`: gives the row with this id to the actor and
     * marks it primary, touching nothing else; null for an unknown id. The
     * update throws if a valid primary row already holds the content.
     */
    method OwnAndPrimarizeProperty(id: Uuid, actorId: Uuid) returns (r: Result<Option<ActorProperty>, Failure>)
      requires Valid()
      modifies this
      ensures Valid()
      ensures Update(r, properties) == OwnIn(old(properties), id, actorId)
      ensures r == Ok(None) <==> id !in PropertyIds(old(properties))
      ensures r.Err? || r == Ok(None) ==> properties == old(properties)
      ensures r.Err? ==> exists i :: 0 <= i < |old(properties)| && old(properties)[i].id == id
                                     && ClashesAt(old(properties), i, OwnedPrimary(old(properties)[i], actorId))
      ensures r.Ok? && r.value.Some? ==>
                exists i :: 0 <= i < |old(properties)| && old(properties)[i].id == id
                  && r.value.value == OwnedPrimary(old(properties)[i], actorId)
                  && properties == old(properties)[i := r.value.value]
    {
      var at := IndexOfId(properties, id);
      if at.None? {
        return Ok(None);
      }
      var i := at.value;
      assert properties[i] in properties;
      var updated := Replace(i, OwnedPrimary(properties[i], actorId));
      if updated.Err? {
        return Err(updated.error);
      }
      r := Ok(Some(updated.value));
    }
  }
}
