/**
 * The device registry: installations (client devices) and installation
 * links, the binding of one installation to one actor whose id ("ioid")
 * is the address a message packet is sent to. Links are soft-deleted;
 * at most one link per (installation, actor) may be undeleted.
 */
module Installations {
  import opened Common
  import opened Api

  datatype Os = Desktop | Windows | MacOS | Linux | Mobile | Android | IOS | Web

  datatype Installation = Installation(
    id: Uuid, name: string, desc: string, os: Os, clientVersionName: string,
    createdAt: Instant, deletedAt: Option<Instant>)

  datatype InstallationLink = InstallationLink(
    id: Uuid, installationId: Uuid, actorId: Uuid, createdAt: Instant, deletedAt: Option<Instant>)

  /** The ids of a list of links, in order. */
  function LinkIds(links: seq<InstallationLink>): (r: seq<Uuid>)
    ensures |r| == |links|
  {
    seq(|links|, i requires 0 <= i < |links| => links[i].id)
  }

  /** An undeleted link binding this installation to this actor. */
  predicate ActiveFor(l: InstallationLink, actorId: Uuid, installationId: Uuid)
  {
    l.deletedAt == None && l.actorId == actorId && l.installationId == installationId
  }

  /** Some undeleted link binds this installation to this actor. */
  predicate HasActiveLink(links: seq<InstallationLink>, actorId: Uuid, installationId: Uuid)
  {
    exists l :: l in links && ActiveFor(l, actorId, installationId)
  }

  /** Some link, deleted or not, refers to this installation. */
  predicate LinkedTo(links: seq<InstallationLink>, installationId: Uuid)
  {
    exists l :: l in links && l.installationId == installationId
  }

  /** The partial unique index on (installation_id, actor_id) where deleted_at is null. */
  ghost predicate ActiveLinksUnique(links: seq<InstallationLink>)
  {
    forall i, j :: 0 <= i < j < |links| && links[i].deletedAt == None ==>
      !ActiveFor(links[j], links[i].actorId, links[i].installationId)
  }

  /** The varchar lengths of the installation table: name 50, desc 250, client_version_name 50. */
  predicate FitsColumns(name: string, desc: string, clientVersionName: string)
  {
    |name| <= 50 && |desc| <= 250 && |clientVersionName| <= 50
  }

  /** The installation table after `create`: update the row with this id, or insert one. */
  function Upserted(m: map<Uuid, Installation>, id: Uuid, name: string, desc: string, os: Os,
                    clientVersionName: string, now: Instant): (r: map<Uuid, Installation>)
  {
    if id in m then
      m[id := m[id].(name := name, desc := desc, os := os, clientVersionName := clientVersionName)]
    else
      m[id := Installation(id, name, desc, os, clientVersionName, now, None)]
  }

  /**
   * After `create` exactly one row has the id, it holds the given fields,
   * a row that existed keeps its creation and deletion stamps, and no
   * other row changes.
   */
  lemma UpsertedState(m: map<Uuid, Installation>, id: Uuid, name: string, desc: string, os: Os,
                      clientVersionName: string, now: Instant)
    requires forall k :: k in m ==> m[k].id == k
    ensures var r := Upserted(m, id, name, desc, os, clientVersionName, now);
            && r.Keys == m.Keys + {id}
            && r[id].id == id && r[id].name == name && r[id].desc == desc && r[id].os == os
            && r[id].clientVersionName == clientVersionName
            && (id in m ==> r[id].createdAt == m[id].createdAt && r[id].deletedAt == m[id].deletedAt)
            && (id !in m ==> r[id].createdAt == now && r[id].deletedAt == None)
            && (forall k :: k in m && k != id ==> r[k] == m[k])
            && (forall k :: k in r ==> r[k].id == k)
  {
  }

  /** Repeating `create` with the same arguments leaves the same table, whatever the clock says. */
  lemma UpsertIdempotent(m: map<Uuid, Installation>, id: Uuid, name: string, desc: string, os: Os,
                         clientVersionName: string, now: Instant, later: Instant)
    ensures Upserted(Upserted(m, id, name, desc, os, clientVersionName, now), id, name, desc, os, clientVersionName, later)
         == Upserted(m, id, name, desc, os, clientVersionName, now)
  {
  }

  /** One link after `deleteLinks`: stamped iff it belongs to the (actor, installation) pair. */
  function Stamped(l: InstallationLink, actorId: Uuid, installationId: Uuid, now: Instant): InstallationLink
  {
    if l.actorId == actorId && l.installationId == installationId then l.(deletedAt := Some(now)) else l
  }

  /** The link table after `deleteLinks(actorId, installationId)`. */
  function StampDeleted(links: seq<InstallationLink>, actorId: Uuid, installationId: Uuid, now: Instant)
    : (r: seq<InstallationLink>)
    ensures |r| == |links|
  {
    seq(|links|, i requires 0 <= i < |links| => Stamped(links[i], actorId, installationId, now))
  }

  /**
   * `deleteLinks` stamps every link of exactly that pair, deleted or not,
   * leaves every other link as it was, keeps every id, and leaves the pair
   * with no undeleted link.
   */
  lemma StampDeletedEffect(links: seq<InstallationLink>, actorId: Uuid, installationId: Uuid, now: Instant)
    ensures var r := StampDeleted(links, actorId, installationId, now);
            && LinkIds(r) == LinkIds(links)
            && (forall i :: 0 <= i < |links| && links[i].actorId == actorId && links[i].installationId == installationId
                  ==> r[i] == links[i].(deletedAt := Some(now)))
            && (forall i :: 0 <= i < |links| && !(links[i].actorId == actorId && links[i].installationId == installationId)
                  ==> r[i] == links[i])
            && !HasActiveLink(r, actorId, installationId)
  {
    var r := StampDeleted(links, actorId, installationId, now);
    assert LinkIds(r) == LinkIds(links);
  }

  /** Stamping only removes undeleted links, so the unique index still holds. */
  lemma StampDeletedKeepsIndex(links: seq<InstallationLink>, actorId: Uuid, installationId: Uuid, now: Instant)
    requires ActiveLinksUnique(links)
    ensures ActiveLinksUnique(StampDeleted(links, actorId, installationId, now))
  {
    var r := StampDeleted(links, actorId, installationId, now);
    forall i, j | 0 <= i < j < |r| && r[i].deletedAt == None
      ensures !ActiveFor(r[j], r[i].actorId, r[i].installationId)
    {
      assert r[i] == links[i];
    }
  }

  /** With no link of the installation, `deleteLinks` changes nothing. */
  lemma StampDeletedUnlinked(links: seq<InstallationLink>, actorId: Uuid, installationId: Uuid, now: Instant)
    requires !LinkedTo(links, installationId)
    ensures StampDeleted(links, actorId, installationId, now) == links
  {
    forall i | 0 <= i < |links|
      ensures StampDeleted(links, actorId, installationId, now)[i] == links[i]
    {
      assert links[i] in links;
    }
  }

  /**
   * Soft-deleted links stay in the table, so `listLinks` still returns
   * them: a relinked installation's old ioid remains a fanout target.
   */
  lemma StaleLinksStayListed(links: seq<InstallationLink>, actorId: Uuid, installationId: Uuid, now: Instant,
                             l: InstallationLink)
    requires l in links && l.actorId == actorId && l.installationId == installationId
    ensures l.(deletedAt := Some(now)) in Filter(StampDeleted(links, actorId, installationId, now),
                                                  (x: InstallationLink) => x.actorId == actorId)
  {
    var i :| 0 <= i < |links| && links[i] == l;
    assert StampDeleted(links, actorId, installationId, now)[i] == l.(deletedAt := Some(now));
  }

  /** The installation and link tables. */
  class InstallationsService {
    var installations: map<Uuid, Installation>
    var links: seq<InstallationLink>

    /**
     * Rows sit under their own id, link ids are unique, the active-link
     * index holds, and every link refers to an installation (the foreign key
     * of `installation_links.installation_id`).
     */
    ghost predicate Valid()
      reads this
    {
      && (forall id :: id in installations ==> installations[id].id == id)
      && Distinct(LinkIds(links))
      && ActiveLinksUnique(links)
      && (forall l :: l in links ==> l.installationId in installations)
    }

    constructor ()
      ensures Valid() && installations == map[] && links == []
    {
      installations := map[];
      links := [];
    }

    /** `get`: the installation with this id, deleted or not. */
    function Get(id: Uuid): (r: Option<Installation>)
      reads this
      requires Valid()
      ensures r.Some? <==> id in installations
      ensures r.Some? ==> r.value == installations[id] && r.value.id == id
    {
      if id in installations then Some(installations[id]) else None
    }

    /**
     * `create`: an upsert keyed by the client-chosen id; a text longer than
     * its varchar column is refused before anything is written.
     */
    method Create(id: Uuid, name: string, desc: string, os: Os, clientVersionName: string, now: Instant)
      returns (r: Result<Installation, Failure>)
      requires Valid()
      modifies this
      ensures Valid()
      ensures r.Err? <==> !FitsColumns(name, desc, clientVersionName)
      ensures r.Err? ==> installations == old(installations)
      ensures r.Ok? ==> installations == Upserted(old(installations), id, name, desc, os, clientVersionName, now)
                        && r.value == installations[id]
      ensures links == old(links)
    {
      if !FitsColumns(name, desc, clientVersionName) {
        return Err(OtherThrowable("value exceeds the length of its varchar column"));
      }
      if id in installations {
        var curr := installations[id];
        var updated := curr.(name := name, desc := desc, os := os, clientVersionName := clientVersionName);
        installations := installations[id := updated];
        return Ok(updated);
      }
      var created := Installation(id, name, desc, os, clientVersionName, now, None);
      installations := installations[id := created];
      r := Ok(created);
    }

    /**
     * `linkInstallation`: inserts a fresh undeleted link; the insert fails
     * while the pair still has an undeleted link (unique index violation)
     * and for an installation id with no installation (foreign key
     * violation).
     */
    method LinkInstallation(actorId: Uuid, installationId: Uuid, newId: Uuid, now: Instant)
      returns (r: Result<InstallationLink, Failure>)
      requires Valid()
      requires newId !in LinkIds(links)
      modifies this
      ensures Valid()
      ensures installations == old(installations)
      ensures r.Err? <==> HasActiveLink(old(links), actorId, installationId) || installationId !in installations
      ensures r.Err? ==> links == old(links)
      ensures r.Ok? ==> r.value == InstallationLink(newId, installationId, actorId, now, None)
                        && links == old(links) + [r.value]
    {
      if HasActiveLink(links, actorId, installationId) {
        return Err(OtherThrowable("unique index violation on installation link (installation_id, actor_id)"));
      }
      if installationId !in installations {
        return Err(OtherThrowable("referential integrity violation on installation_links.installation_id"));
      }
      var link := InstallationLink(newId, installationId, actorId, now, None);
      assert LinkIds(links + [link]) == LinkIds(links) + [newId];
      forall i | 0 <= i < |links| && links[i].deletedAt == None
        ensures !ActiveFor(link, links[i].actorId, links[i].installationId)
      {
        assert links[i] in links;
      }
      links := links + [link];
      r := Ok(link);
    }

    /** `listLinks`: every link of the actor, in table order, soft-deleted ones included. */
    function ListLinks(aid: Uuid): (r: seq<InstallationLink>)
      reads this
      ensures forall l :: l in r ==> l in links && l.actorId == aid
      ensures forall l :: l in links && l.actorId == aid ==> l in r
    {
      Filter(links, (l: InstallationLink) => l.actorId == aid)
    }

    /** `allLinks`. */
    function AllLinks(): seq<InstallationLink>
      reads this
    {
      links
    }

    /** `getLink`: the link with this id, deleted or not. */
    function GetLink(ioid: Uuid): (r: Option<InstallationLink>)
      reads this
      ensures r.Some? ==> r.value in links && r.value.id == ioid
      ensures r.None? <==> ioid !in LinkIds(links)
    {
      var r := First(links, (l: InstallationLink) => l.id == ioid);
      assert r.None? ==> ioid !in LinkIds(links) by {
        if r.None? {
          forall i | 0 <= i < |links|
            ensures LinkIds(links)[i] != ioid
          {
            assert links[i] in links;
          }
        }
      }
      assert r.Some? ==> ioid in LinkIds(links) by {
        if r.Some? {
          var i :| 0 <= i < |links| && links[i] == r.value;
          assert LinkIds(links)[i] == ioid;
        }
      }
      r
    }

    /** `deleteLinks`: stamps `deletedAt` on every link of (actor, installation). */
    method DeleteLinks(actorId: Uuid, installationId: Uuid, now: Instant)
      requires Valid()
      modifies this
      ensures Valid()
      ensures installations == old(installations)
      ensures links == StampDeleted(old(links), actorId, installationId, now)
    {
      var i := 0;
      while i < |links|
        invariant 0 <= i <= |links| == |old(links)|
        invariant installations == old(installations)
        invariant links[..i] == StampDeleted(old(links), actorId, installationId, now)[..i]
        invariant links[i..] == old(links)[i..]
      {
        if links[i].actorId == actorId && links[i].installationId == installationId {
          links := links[i := links[i].(deletedAt := Some(now))];
        }
        i := i + 1;
      }
      assert links == links[..i];
      StampDeletedEffect(old(links), actorId, installationId, now);
      StampDeletedKeepsIndex(old(links), actorId, installationId, now);
      assert Distinct(LinkIds(links)) by {
        assert LinkIds(links) == LinkIds(old(links));
      }
      forall l | l in links
        ensures l.installationId in installations
      {
        var k :| 0 <= k < |links| && links[k] == l;
        assert old(links)[k] in old(links);
      }
    }

    /**
     * `delete`: removes the installation row; true iff it existed. The
     * delete throws while a link, deleted or not, still refers to the row.
     */
    method Delete(id: Uuid) returns (r: Result<bool, Failure>)
      requires Valid()
      modifies this
      ensures Valid()
      ensures r == Ok(false) <==> id !in old(installations)
      ensures r.Err? <==> id in old(installations) && LinkedTo(links, id)
      ensures r.Ok? ==> installations == old(installations) - {id}
      ensures r.Err? ==> installations == old(installations)
      ensures links == old(links)
    {
      if id !in installations {
        return Ok(false);
      }
      if LinkedTo(links, id) {
        return Err(OtherThrowable("referential integrity violation on installation_links.installation_id"));
      }
      installations := installations - {id};
      r := Ok(true);
    }
  }

  /**
   * Relinking (delete the pair's links, then link) always succeeds: after
   * `deleteLinks` the pair has no undeleted link for the index to reject.
   */
  lemma RelinkAdmitted(links: seq<InstallationLink>, actorId: Uuid, installationId: Uuid, now: Instant)
    ensures !HasActiveLink(StampDeleted(links, actorId, installationId, now), actorId, installationId)
  {
    StampDeletedEffect(links, actorId, installationId, now);
  }
}
