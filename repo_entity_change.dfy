/** A change record of the repository: the user and revision details written
    into its fields and its metadata before it is dispatched to clients. */
module RepoEntityChanges {
  import opened Wrappers

  /** The scalar values stored in a change's fields and metadata. */
  datatype Value = VInt(i: int) | VText(s: string) | VNull

  datatype User = User(id: nat, name: string)

  /** The parts of a revision record the change copies. */
  datatype Revision = Revision(
    id: nat,
    timestamp: string,
    pageId: nat,
    parentId: nat,
    comment: Option<string>,
    user: Option<User>)

  /** The page, revision and parent ids that metadata always carries. */
  const PageKeys: set<string> := {"page_id", "rev_id", "parent_id"}

  /** The metadata a revision contributes: its page, parent, comment and id. */
  function RevisionMetadata(rev: Revision): (m: map<string, Value>)
    ensures m.Keys == {"page_id", "parent_id", "comment", "rev_id"}
    ensures m["rev_id"] == VInt(rev.id)
    ensures m["comment"] == VNull <==> rev.comment.None?
  {
    map[
      "page_id" := VInt(rev.pageId),
      "parent_id" := VInt(rev.parentId),
      "comment" := if rev.comment.Some? then VText(rev.comment.value) else VNull,
      "rev_id" := VInt(rev.id)]
  }

  class RepoEntityChange {
    var fields: map<string, Value>
    var metadata: map<string, Value>

    constructor(fields: map<string, Value>, metadata: map<string, Value>)
      ensures this.fields == fields && this.metadata == metadata
    {
      this.fields := fields;
      this.metadata := metadata;
    }

    /** setFields: the given fields replace those of the same name. */
    method SetFields(update: map<string, Value>)
      modifies this
      ensures fields == old(fields) + update
      ensures metadata == old(metadata)
    {
      fields := fields + update;
    }

    /** setMetadata: the given entries replace those of the same name. */
    method SetMetadata(update: map<string, Value>)
      modifies this
      ensures metadata == old(metadata) + update
      ensures fields == old(fields)
    {
      metadata := metadata + update;
    }

    /** addUserMetadata: the user id as a field, the name and central id as metadata. */
    method AddUserMetadata(userId: int, userName: string, centralUserId: int)
      modifies this
      ensures fields == old(fields)["user_id" := VInt(userId)]
      ensures metadata == old(metadata)["user_text" := VText(userName)]["central_user_id" := VInt(centralUserId)]
    {
      SetFields(map["user_id" := VInt(userId)]);
      SetMetadata(map["user_text" := VText(userName), "central_user_id" := VInt(centralUserId)]);
    }

    /** setMetadataFromUser: records the user, then gives page_id, rev_id and
        parent_id the value 0 where they are still absent. */
    method SetMetadataFromUser(user: User, centralUserId: int)
      modifies this
      ensures fields == old(fields)["user_id" := VInt(user.id)]
      ensures metadata.Keys == old(metadata).Keys + PageKeys + {"user_text", "central_user_id"}
      ensures metadata["user_text"] == VText(user.name)
      ensures metadata["central_user_id"] == VInt(centralUserId)
      ensures forall k :: k in PageKeys ==>
        metadata[k] == if k in old(metadata) then old(metadata)[k] else VInt(0)
      ensures forall k :: k in old(metadata) && k != "user_text" && k != "central_user_id" ==>
        metadata[k] == old(metadata)[k]
    {
      AddUserMetadata(user.id, user.name, centralUserId);
      var defaults := map["page_id" := VInt(0), "rev_id" := VInt(0), "parent_id" := VInt(0)];
      var merged := defaults + metadata;
      SetMetadata(merged);
    }

    /** setRevisionInfo: writes the revision id and time fields; fails (the
        exception) when the change has no object id, leaving those two fields
        written; otherwise copies the revision's metadata and its user, or user
        0 named "" when the revision has none. */
    method SetRevisionInfo(rev: Revision, centralUserId: int) returns (r: Outcome<string>)
      modifies this
      ensures r.Fail? <==> "object_id" !in old(fields)
      ensures r.Fail? ==> fields == old(fields)["revision_id" := VInt(rev.id)]["time" := VText(rev.timestamp)]
      ensures r.Fail? ==> metadata == old(metadata)
      ensures r.Pass? ==> (fields ==
        old(fields)["revision_id" := VInt(rev.id)]["time" := VText(rev.timestamp)]
          ["user_id" := VInt(if rev.user.Some? then rev.user.value.id else 0)])
      ensures r.Pass? ==> (metadata ==
        (old(metadata) + RevisionMetadata(rev))
          ["user_text" := VText(if rev.user.Some? then rev.user.value.name else "")]
          ["central_user_id" := VInt(centralUserId)])
      ensures r.Pass? ==> metadata["rev_id"] == fields["revision_id"]
      ensures fields["revision_id"] == VInt(rev.id) && fields["time"] == VText(rev.timestamp)
    {
      SetFields(map["revision_id" := VInt(rev.id), "time" := VText(rev.timestamp)]);
      assert fields == old(fields)["revision_id" := VInt(rev.id)]["time" := VText(rev.timestamp)];
      if "object_id" !in fields {
        return Fail("EntityChange::setRevisionInfo() called without calling setEntityId() first!");
      }
      SetMetadata(RevisionMetadata(rev));
      var userId := if rev.user.Some? then rev.user.value.id else 0;
      var userName := if rev.user.Some? then rev.user.value.name else "";
      AddUserMetadata(userId, userName, centralUserId);
      r := Pass;
    }
  }

  /** Filling the defaults twice changes nothing the first time did not: the
      page keys keep whatever value they got. */
  lemma {:induction false} DefaultsAreStable(metadata: map<string, Value>)
    requires PageKeys <= metadata.Keys
    ensures map["page_id" := VInt(0), "rev_id" := VInt(0), "parent_id" := VInt(0)] + metadata == metadata
  {
    var d := map["page_id" := VInt(0), "rev_id" := VInt(0), "parent_id" := VInt(0)];
    assert (d + metadata).Keys == metadata.Keys;
  }
}
