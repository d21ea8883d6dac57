/**
 * Contact links between actors: "actor knows peer, with a permission".
 * At most one undeleted link exists per (actor, peer). The `created_by`
 * column is a non-null reference without a default, so a row is only
 * insertable once it names its creator.
 */
module ActorLinks {
  import opened Common
  import opened Api

  datatype Perm = Invited | Read | Write | ReadWrite | Admin

  /** A stored row; `createdBy` is None when the insert leaves the column unset. */
  datatype LinkRow = LinkRow(
    id: Uuid, actorId: Uuid, peerId: Uuid, perm: Perm, createdAt: Instant,
    createdBy: Option<Uuid>, deletedAt: Option<Instant>)

  /** The DTO the service returns (no row id). */
  datatype ActorLink = ActorLink(
    actorId: Uuid, peerId: Uuid, perm: Perm, createdAt: Instant, createdBy: Uuid, deletedAt: Option<Instant>)

  /** The column default of `perm`. */
  const DefaultPerm := Invited

  /** Every non-null column without a default is set. */
  predicate Insertable(row: LinkRow)
  {
    row.createdBy.Some?
  }

  /** `toDTO`. */
  function ToDTO(row: LinkRow): (l: ActorLink)
    requires Insertable(row)
    ensures l.actorId == row.actorId && l.peerId == row.peerId && l.perm == row.perm
    ensures l.createdAt == row.createdAt && Some(l.createdBy) == row.createdBy && l.deletedAt == row.deletedAt
  {
    ActorLink(row.actorId, row.peerId, row.perm, row.createdAt, row.createdBy.value, row.deletedAt)
  }

  /** The DTOs of a list of rows, in order. */
  function Dtos(rows: seq<LinkRow>): (r: seq<ActorLink>)
    requires forall x :: x in rows ==> Insertable(x)
    ensures |r| == |rows|
    ensures forall i :: 0 <= i < |rows| ==> r[i] == ToDTO(rows[i])
  {
    seq(|rows|, i requires 0 <= i < |rows| => ToDTO(rows[i]))
  }

  /**
   * The actor, the peer and the creator (when set) are actors of the actor
   * table: the three foreign keys of the link table.
   */
  predicate ActorsKnown(row: LinkRow, actorIds: seq<Uuid>)
  {
    && row.actorId in actorIds && row.peerId in actorIds
    && (row.createdBy.Some? ==> row.createdBy.value in actorIds)
  }

  /** The ids of the link table, in order. */
  function RowIds(rows: seq<LinkRow>): (r: seq<Uuid>)
    ensures |r| == |rows|
  {
    seq(|rows|, i requires 0 <= i < |rows| => rows[i].id)
  }

  /** An undeleted link from this actor to this peer exists. */
  predicate Linked(rows: seq<LinkRow>, actorId: Uuid, peerId: Uuid)
  {
    exists x :: x in rows && x.actorId == actorId && x.peerId == peerId && x.deletedAt == None
  }

  /** The partial unique index on (actor_id, peer_id) where deleted_at is null. */
  ghost predicate PairsUnique(rows: seq<LinkRow>)
  {
    forall i, j :: 0 <= i < j < |rows| && rows[i].deletedAt == None && rows[j].deletedAt == None ==>
      (rows[i].actorId, rows[i].peerId) != (rows[j].actorId, rows[j].peerId)
  }

  /** The row `create` builds as written: only actor and peer are assigned. */
  function NewRowAsWritten(actorId: Uuid, peerId: Uuid, newId: Uuid, now: Instant): LinkRow
  {
    LinkRow(newId, actorId, peerId, DefaultPerm, now, None, None)
  }

  /** The row `create` evidently means to build: the creator is recorded too. */
  function NewRow(actorId: Uuid, peerId: Uuid, createdBy: Uuid, newId: Uuid, now: Instant): (row: LinkRow)
    ensures Insertable(row)
  {
    LinkRow(newId, actorId, peerId, DefaultPerm, now, Some(createdBy), None)
  }

  /** As written, `create` never produces an insertable row, whatever its arguments. */
  lemma AsWrittenNeverInsertable(actorId: Uuid, peerId: Uuid, newId: Uuid, now: Instant)
    ensures !Insertable(NewRowAsWritten(actorId, peerId, newId, now))
  {
  }

  /** The link table. */
  class ActorLinksService {
    var rows: seq<LinkRow>

    /** Ids are unique, every row names its creator, and the pair index holds. */
    ghost predicate Valid()
      reads this
    {
      && Distinct(RowIds(rows))
      && (forall x :: x in rows ==> Insertable(x))
      && PairsUnique(rows)
    }

    constructor ()
      ensures Valid() && rows == []
    {
      rows := [];
    }

    /** `all`: every link, soft-deleted ones included, in table order. */
    function All(): (r: seq<ActorLink>)
      reads this
      requires Valid()
      ensures |r| == |rows|
      ensures forall x :: x in rows ==> ToDTO(x) in r
    {
      var r := Dtos(rows);
      assert forall x :: x in rows ==> ToDTO(x) in r by {
        forall x | x in rows ensures ToDTO(x) in r {
          var i :| 0 <= i < |rows| && rows[i] == x;
          assert r[i] == ToDTO(x);
        }
      }
      r
    }

    /** `listByActor`: the actor's undeleted links, in table order. */
    function ListByActor(actorId: Uuid): (r: seq<ActorLink>)
      reads this
      requires Valid()
      ensures forall l :: l in r ==> l.actorId == actorId && l.deletedAt == None
      ensures forall x :: x in rows && x.actorId == actorId && x.deletedAt == None ==> ToDTO(x) in r
    {
      var kept := Filter(rows, (x: LinkRow) => x.actorId == actorId && x.deletedAt == None);
      var r := Dtos(kept);
      assert forall l :: l in r ==> l.actorId == actorId && l.deletedAt == None by {
        forall l | l in r ensures l.actorId == actorId && l.deletedAt == None {
          var i :| 0 <= i < |r| && r[i] == l;
          assert kept[i] in kept;
        }
      }
      assert forall x :: x in rows && x.actorId == actorId && x.deletedAt == None ==> ToDTO(x) in r by {
        forall x | x in rows && x.actorId == actorId && x.deletedAt == None ensures ToDTO(x) in r {
          var i :| 0 <= i < |kept| && kept[i] == x;
          assert r[i] == ToDTO(x);
        }
      }
      r
    }

    /** `get`: the link with this row id, deleted or not. */
    function Get(id: Uuid): (r: Option<ActorLink>)
      reads this
      requires Valid()
      ensures r.Some? ==> exists x :: x in rows && x.id == id && r.value == ToDTO(x)
      ensures r.None? <==> id !in RowIds(rows)
    {
      var found := First(rows, (x: LinkRow) => x.id == id);
      assert found.None? ==> id !in RowIds(rows) by {
        if found.None? {
          forall i | 0 <= i < |rows| ensures RowIds(rows)[i] != id {
            assert rows[i] in rows;
          }
        }
      }
      assert found.Some? ==> id in RowIds(rows) by {
        if found.Some? {
          var i :| 0 <= i < |rows| && rows[i] == found.value;
          assert RowIds(rows)[i] == id;
        }
      }
      if found.None? then None else Some(ToDTO(found.value))
    }

    /**
     * Inserts a row: refused when a non-null column is unset, when a column
     * names an actor missing from `actorIds` (the ids of the actor table),
     * or when the pair already has an undeleted link (unique index violation).
     */
    method Insert(row: LinkRow, actorIds: seq<Uuid>) returns (r: Result<ActorLink, Failure>)
      requires Valid()
      requires row.id !in RowIds(rows) && row.deletedAt == None
      modifies this
      ensures Valid()
      ensures r.Err? <==> !Insertable(row) || !ActorsKnown(row, actorIds) || Linked(old(rows), row.actorId, row.peerId)
      ensures r.Err? ==> rows == old(rows)
      ensures r.Ok? ==> rows == old(rows) + [row] && r.value == ToDTO(row)
    {
      if !Insertable(row) {
        return Err(OtherThrowable("created_by has no value and no default"));
      }
      if !ActorsKnown(row, actorIds) {
        return Err(OtherThrowable("referential integrity violation on an actor link's actor"));
      }
      if Linked(rows, row.actorId, row.peerId) {
        return Err(OtherThrowable("unique index violation on actor link (actor_id, peer_id)"));
      }
      assert RowIds(rows + [row]) == RowIds(rows) + [row.id];
      forall i | 0 <= i < |rows| && rows[i].deletedAt == None
        ensures (rows[i].actorId, rows[i].peerId) != (row.actorId, row.peerId)
      {
        assert rows[i] in rows;
      }
      rows := rows + [row];
      r := Ok(ToDTO(row));
    }

    /** `create` as written: leaves `created_by` unset, so the insert always throws. */
    method CreateAsWritten(actorId: Uuid, peerId: Uuid, newId: Uuid, now: Instant, actorIds: seq<Uuid>)
      returns (r: Result<ActorLink, Failure>)
      requires Valid()
      requires newId !in RowIds(rows)
      modifies this
      ensures Valid()
      ensures r.Err? && rows == old(rows)
    {
      r := Insert(NewRowAsWritten(actorId, peerId, newId, now), actorIds);
    }

    /**
     * `create`, recording the creator: a link with the default permission
     * `Invited` and no deletion stamp, unless one of the three actors is
     * not in the actor table or the pair is already linked.
     */
    method Create(actorId: Uuid, peerId: Uuid, createdBy: Uuid, newId: Uuid, now: Instant, actorIds: seq<Uuid>)
      returns (r: Result<ActorLink, Failure>)
      requires Valid()
      requires newId !in RowIds(rows)
      modifies this
      ensures Valid()
      ensures r.Err? <==> actorId !in actorIds || peerId !in actorIds || createdBy !in actorIds
                          || Linked(old(rows), actorId, peerId)
      ensures r.Err? ==> rows == old(rows)
      ensures r.Ok? ==> && r.value == ActorLink(actorId, peerId, Invited, now, createdBy, None)
                        && rows == old(rows) + [NewRow(actorId, peerId, createdBy, newId, now)]
    {
      r := Insert(NewRow(actorId, peerId, createdBy, newId, now), actorIds);
    }
  }
}
