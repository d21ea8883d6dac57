/**
 * Actors (accounts) and their secret updates, with the string sanitisers
 * applied to handles and secrets. A handle is unique among undeleted
 * actors; lookups by handle sanitise their argument first.
 */
module Actors {
  import opened Common
  import opened Text
  import opened Api

  datatype ActorType = Account | Group | Channel | Automated

  datatype Auth = Default | Privileged | Root

  /** An actor row; the service's DTO carries every column unchanged. */
  datatype Actor = Actor(
    id: Uuid, type_: ActorType, auth: Auth, handle: string, name: string, desc: Option<string>,
    secret: string, profileId: Option<Uuid>, bannerId: Option<Uuid>,
    createdAt: Instant, deletedAt: Option<Instant>)

  datatype SecretUpdate = SecretUpdate(id: Uuid, actorId: Uuid, secret: string, createdAt: Instant)

  /** Varchar lengths of the actor table. */
  const HandleColumn := 18
  const NameColumn := 50
  const DescColumn := 250
  const SecretColumn := 1000

  /** `sanitizeHandle`: trim, then lowercase. */
  function SanitizeHandle(s: string): (r: string)
    ensures |r| <= |s|
    ensures Trimmed(r)
    ensures forall i :: 0 <= i < |r| ==> !('A' <= r[i] <= 'Z')
  {
    TrimIsTrimmed(s);
    LowerKeepsTrimmed(Trim(s));
    Lower(Trim(s))
  }

  /** `sanitizeUnique`: the same sanitiser as for handles. */
  function SanitizeUnique(s: string): (r: string)
    ensures r == SanitizeHandle(s)
  {
    SanitizeHandle(s)
  }

  /** `sanitizeSecret`: trim, then lowercase the first character only. */
  function SanitizeSecret(s: string): (r: string)
    ensures |r| == |Trim(s)|
    ensures r != [] ==> r[0] == LowerChar(Trim(s)[0]) && r[1..] == Trim(s)[1..]
  {
    LowerFirst(Trim(s))
  }

  /** Sanitising a handle twice changes nothing more. */
  lemma SanitizeHandleIdempotent(s: string)
    ensures SanitizeHandle(SanitizeHandle(s)) == SanitizeHandle(s)
  {
    var t := Lower(Trim(s));
    TrimOfTrimmed(t);
    LowerIdempotent(Trim(s));
  }

  /**
   * Letter case and surrounding whitespace do not matter: a padded case
   * variant of a string sanitises to the same handle.
   */
  lemma SanitizeHandleVariant(ws1: string, v: string, ws2: string, w: string)
    requires AllWhitespace(ws1) && AllWhitespace(ws2)
    requires CaseVariant(v, w)
    ensures SanitizeHandle(ws1 + v + ws2) == SanitizeHandle(w)
  {
    TrimPadded(ws1, v, ws2);
    LowerTrim(v);
    LowerTrim(w);
    assert Lower(v) == Lower(w);
  }

  /** Sanitising a secret twice changes nothing more. */
  lemma SanitizeSecretIdempotent(s: string)
    ensures SanitizeSecret(SanitizeSecret(s)) == SanitizeSecret(s)
  {
    var t := Trim(s);
    TrimIsTrimmed(s);
    var u := LowerFirst(t);
    if t != [] {
      LowerCharKeepsWhitespace(t[0]);
      assert u[|u| - 1] == if |t| == 1 then LowerChar(t[0]) else t[|t| - 1];
    }
    assert Trimmed(u);
    TrimOfTrimmed(u);
  }

  /** The ids of the actor table, in order. */
  function ActorIds(actors: seq<Actor>): (r: seq<Uuid>)
    ensures |r| == |actors|
  {
    seq(|actors|, i requires 0 <= i < |actors| => actors[i].id)
  }

  /** Some undeleted actor holds this handle. */
  predicate HandleTaken(actors: seq<Actor>, handle: string)
  {
    exists a :: a in actors && a.handle == handle && a.deletedAt == None
  }

  /** The partial unique index on handle where deleted_at is null. */
  ghost predicate HandlesUnique(actors: seq<Actor>)
  {
    forall i, j :: 0 <= i < j < |actors| && actors[i].deletedAt == None && actors[j].deletedAt == None ==>
      actors[i].handle != actors[j].handle
  }

  /** The texts fit their varchar columns. */
  predicate FitsColumns(handle: string, name: string, desc: Option<string>, secret: string)
  {
    |handle| <= HandleColumn && |name| <= NameColumn && |secret| <= SecretColumn
    && (desc.Some? ==> |desc.value| <= DescColumn)
  }

  /**
   * Why the actor insert of `create` throws, if it does: a text longer than
   * its column, or a sanitised handle an undeleted actor already holds.
   */
  function InsertFailure(actors: seq<Actor>, handle: string, name: string, secret: string): (r: Option<Failure>)
    ensures r.None? <==> FitsColumns(SanitizeHandle(handle), name, None, secret)
                         && !HandleTaken(actors, SanitizeHandle(handle))
  {
    var h := SanitizeHandle(handle);
    if !FitsColumns(h, name, None, secret) then Some(OtherThrowable("value exceeds the length of its varchar column"))
    else if HandleTaken(actors, h) then Some(OtherThrowable("unique index violation on actor handle"))
    else None
  }

  /** Some secret update refers to this actor. */
  predicate Referenced(updates: seq<SecretUpdate>, actorId: Uuid)
  {
    exists u :: u in updates && u.actorId == actorId
  }

  /** The query of `getByHandle`: the first undeleted actor with the sanitised handle. */
  function FindByHandle(actors: seq<Actor>, handle: string): (r: Option<Actor>)
    ensures r.Some? ==> r.value in actors && r.value.handle == SanitizeHandle(handle) && r.value.deletedAt == None
    ensures r.None? <==> !HandleTaken(actors, SanitizeHandle(handle))
  {
    var h := SanitizeHandle(handle);
    First(actors, (a: Actor) => a.handle == h && a.deletedAt == None)
  }

  /**
   * With the handle index in force, any string that sanitises to an
   * undeleted actor's handle (a case variant, padded with whitespace)
   * finds exactly that actor.
   */
  lemma {:induction false} FindByHandleVariant(actors: seq<Actor>, a: Actor, v: string)
    requires HandlesUnique(actors)
    requires a in actors && a.deletedAt == None
    requires SanitizeHandle(v) == a.handle
    ensures FindByHandle(actors, v) == Some(a)
  {
    var p := (x: Actor) => x.handle == a.handle && x.deletedAt == None;
    forall y | y in actors && p(y)
      ensures y == a
    {
      var i :| 0 <= i < |actors| && actors[i] == a;
      var j :| 0 <= j < |actors| && actors[j] == y;
      assert i == j;
    }
    FirstUnique(actors, p, a);
  }

  /** The query of `getLatestSecretUpdate`: the first update for this actor with this secret. */
  function FindSecretUpdate(updates: seq<SecretUpdate>, actorId: Uuid, secret: string): (r: Option<SecretUpdate>)
    ensures r.Some? ==> r.value in updates && r.value.actorId == actorId && r.value.secret == secret
    ensures r.None? <==> forall u :: u in updates ==> !(u.actorId == actorId && u.secret == secret)
  {
    First(updates, (u: SecretUpdate) => u.actorId == actorId && u.secret == secret)
  }

  /** The actor and secret-update tables. */
  class ActorsService {
    var actors: seq<Actor>
    var secretUpdates: seq<SecretUpdate>

    /**
     * Ids are unique, undeleted handles are unique, every row fits its
     * columns, and every secret update refers to an actor (the foreign key
     * of `secret_updates.actor_id`).
     */
    ghost predicate Valid()
      reads this
    {
      && Distinct(ActorIds(actors))
      && HandlesUnique(actors)
      && (forall a :: a in actors ==> FitsColumns(a.handle, a.name, a.desc, a.secret))
      && (forall u :: u in secretUpdates ==> u.actorId in ActorIds(actors))
    }

    constructor ()
      ensures Valid() && actors == [] && secretUpdates == []
    {
      actors := [];
      secretUpdates := [];
    }

    /** `get`: the actor with this id, deleted or not. */
    function Get(id: Uuid): (r: Option<Actor>)
      reads this
      ensures r.Some? ==> r.value in actors && r.value.id == id
      ensures r.None? <==> id !in ActorIds(actors)
    {
      var r := First(actors, (a: Actor) => a.id == id);
      assert r.None? ==> id !in ActorIds(actors) by {
        if r.None? {
          forall i | 0 <= i < |actors|
            ensures ActorIds(actors)[i] != id
          {
            assert actors[i] in actors;
          }
        }
      }
      assert r.Some? ==> id in ActorIds(actors) by {
        if r.Some? {
          var i :| 0 <= i < |actors| && actors[i] == r.value;
          assert ActorIds(actors)[i] == id;
        }
      }
      r
    }

    /** `getByHandle`. */
    function GetByHandle(handle: string): (r: Option<Actor>)
      reads this
      ensures r.Some? ==> r.value in actors && r.value.handle == SanitizeHandle(handle) && r.value.deletedAt == None
      ensures r.None? <==> !HandleTaken(actors, SanitizeHandle(handle))
    {
      FindByHandle(actors, handle)
    }

    /**
     * `create`: inserts an Account/Default actor with the sanitised handle.
     * The insert throws when a text is longer than its column or when an
     * undeleted actor already holds the handle.
     */
    method Create(handle: string, name: string, secret: string, newId: Uuid, now: Instant)
      returns (r: Result<Actor, Failure>)
      requires Valid()
      requires newId !in ActorIds(actors)
      modifies this
      ensures Valid()
      ensures secretUpdates == old(secretUpdates)
      ensures r.Err? <==> !FitsColumns(SanitizeHandle(handle), name, None, secret)
                          || HandleTaken(old(actors), SanitizeHandle(handle))
      ensures r.Err? ==> Some(r.error) == InsertFailure(old(actors), handle, name, secret)
      ensures r.Err? ==> actors == old(actors)
      ensures r.Ok? ==> r.value == Actor(newId, Account, Default, SanitizeHandle(handle), name, None, secret,
                                         None, None, now, None)
                        && actors == old(actors) + [r.value]
    {
      var h := SanitizeHandle(handle);
      var failure := InsertFailure(actors, handle, name, secret);
      if failure.Some? {
        return Err(failure.value);
      }
      var actor := Actor(newId, Account, Default, h, name, None, secret, None, None, now, None);
      assert ActorIds(actors + [actor]) == ActorIds(actors) + [newId];
      forall i | 0 <= i < |actors| && actors[i].deletedAt == None
        ensures actors[i].handle != h
      {
        assert actors[i] in actors;
      }
      actors := actors + [actor];
      r := Ok(actor);
    }

    /**
     * `delete`: removes the row with this id for good (ids are unique, so
     * there is at most one): true iff there was one. The delete throws when
     * a row still refers to the actor: a secret update of this service, or
     * a row of another table, whose referenced actors are `referrers`.
     */
    method Delete(id: Uuid, referrers: set<Uuid>) returns (r: Result<bool, Failure>)
      requires Valid()
      modifies this
      ensures Valid()
      ensures secretUpdates == old(secretUpdates)
      ensures r == Ok(false) <==> id !in ActorIds(old(actors))
      ensures r.Err? <==> id in ActorIds(old(actors)) && (Referenced(old(secretUpdates), id) || id in referrers)
      ensures r != Ok(true) ==> actors == old(actors)
      ensures r == Ok(true) ==> exists i :: 0 <= i < |old(actors)| && old(actors)[i].id == id
                                         && actors == old(actors)[..i] + old(actors)[i + 1..]
      ensures r.Ok? ==> id !in ActorIds(actors)
    {
      var found := Get(id);
      if found.None? {
        return Ok(false);
      }
      if Referenced(secretUpdates, id) || id in referrers {
        return Err(OtherThrowable("referential integrity violation: a row still refers to the actor"));
      }
      var i :| 0 <= i < |actors| && actors[i] == found.value;
      RemoveAtKeepsIndex(actors, i);
      actors := actors[..i] + actors[i + 1..];
      r := Ok(true);
    }

    /**
     * `patch`: sets name and description where they are given and leaves
     * everything else; null when no actor has the id (deleted ones are
     * patched too); a text too long for its column makes the update throw.
     */
    method Patch(id: Uuid, name: Option<string>, desc: Option<string>)
      returns (r: Result<Option<Actor>, Failure>)
      requires Valid()
      modifies this
      ensures Valid()
      ensures secretUpdates == old(secretUpdates)
      ensures |actors| == |old(actors)| && ActorIds(actors) == ActorIds(old(actors))
      ensures r == Ok(None) <==> id !in ActorIds(old(actors))
      ensures r.Err? || r == Ok(None) ==> actors == old(actors)
      ensures r.Ok? && r.value.Some? ==>
                exists i :: 0 <= i < |actors| && old(actors)[i].id == id
                  && actors == old(actors)[i := r.value.value]
                  && r.value.value == old(actors)[i].(name := if name.Some? then name.value else old(actors)[i].name,
                                                      desc := if desc.Some? then desc else old(actors)[i].desc)
    {
      var found := Get(id);
      if found.None? {
        return Ok(None);
      }
      var i :| 0 <= i < |actors| && actors[i] == found.value;
      var curr := actors[i];
      var updated := curr.(name := if name.Some? then name.value else curr.name,
                           desc := if desc.Some? then desc else curr.desc);
      if !FitsColumns(updated.handle, updated.name, updated.desc, updated.secret) {
        return Err(OtherThrowable("value exceeds the length of its varchar column"));
      }
      assert ActorIds(actors[i := updated]) == ActorIds(actors);
      forall a | a in actors[i := updated]
        ensures FitsColumns(a.handle, a.name, a.desc, a.secret)
      {
        var k :| 0 <= k < |actors| && actors[i := updated][k] == a;
        if k != i {
          assert actors[k] in actors;
        }
      }
      actors := actors[i := updated];
      r := Ok(Some(updated));
    }

    /**
     * `createSecretUpdate`: records (actor, secret); a secret too long for
     * its column, or an actor id with no actor, makes the insert throw.
     */
    method CreateSecretUpdate(actorId: Uuid, secret: string, newId: Uuid, now: Instant)
      returns (failure: Option<Failure>)
      requires Valid()
      modifies this
      ensures Valid()
      ensures actors == old(actors)
      ensures failure.None? <==> |secret| <= SecretColumn && actorId in ActorIds(actors)
      ensures failure.Some? ==> secretUpdates == old(secretUpdates)
      ensures failure.None? ==> secretUpdates == old(secretUpdates) + [SecretUpdate(newId, actorId, secret, now)]
    {
      if |secret| > SecretColumn {
        return Some(OtherThrowable("value exceeds the length of its varchar column"));
      }
      if actorId !in ActorIds(actors) {
        return Some(OtherThrowable("referential integrity violation on secret_updates.actor_id"));
      }
      secretUpdates := secretUpdates + [SecretUpdate(newId, actorId, secret, now)];
      failure := None;
    }

    /** `getLatestSecretUpdate`: the first update matching both actor and secret. */
    function GetLatestSecretUpdate(actorId: Uuid, secret: string): (r: Option<SecretUpdate>)
      reads this
      ensures r.Some? ==> r.value in secretUpdates && r.value.actorId == actorId && r.value.secret == secret
      ensures r.None? <==> forall u :: u in secretUpdates ==> !(u.actorId == actorId && u.secret == secret)
    {
      FindSecretUpdate(secretUpdates, actorId, secret)
    }
  }

  /** Removing one row keeps ids and undeleted handles unique, drops that row's id and keeps every other id. */
  lemma RemoveAtKeepsIndex(actors: seq<Actor>, i: nat)
    requires i < |actors|
    requires Distinct(ActorIds(actors))
    requires HandlesUnique(actors)
    ensures var r := actors[..i] + actors[i + 1..];
            && Distinct(ActorIds(r)) && HandlesUnique(r)
            && (forall a :: a in r ==> a in actors)
            && actors[i].id !in ActorIds(r)
            && (forall x :: x in ActorIds(actors) && x != actors[i].id ==> x in ActorIds(r))
  {
    var r := actors[..i] + actors[i + 1..];
    assert forall k :: 0 <= k < |r| ==> r[k] == actors[if k < i then k else k + 1];
    assert Distinct(ActorIds(r)) by {
      forall k, m | 0 <= k < m < |r| ensures ActorIds(r)[k] != ActorIds(r)[m] {
        var k', m' := if k < i then k else k + 1, if m < i then m else m + 1;
        assert ActorIds(actors)[k'] != ActorIds(actors)[m'];
      }
    }
    forall k, m | 0 <= k < m < |r| && r[k].deletedAt == None && r[m].deletedAt == None
      ensures r[k].handle != r[m].handle
    {
      var k', m' := if k < i then k else k + 1, if m < i then m else m + 1;
      assert r[k] == actors[k'] && r[m] == actors[m'];
    }
    forall x | x in ActorIds(actors) && x != actors[i].id
      ensures x in ActorIds(r)
    {
      var k' :| 0 <= k' < |actors| && ActorIds(actors)[k'] == x;
      var k := if k' < i then k' else k' - 1;
      assert k' != i;
      assert ActorIds(r)[k] == x;
    }
    forall k | 0 <= k < |r| ensures ActorIds(r)[k] != actors[i].id {
      var k' := if k < i then k else k + 1;
      assert ActorIds(actors)[k'] != ActorIds(actors)[i];
    }
  }
}
