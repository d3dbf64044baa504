/**
 * The tag records of src/models/tag.rs: the stored `Tag`, its `Default`,
 * the request and response shapes, and the projection `to_tag`.
 */
module Tags {
  import opened Wrappers
  import ObjectIds

  /** A BSON date-time: milliseconds since the Unix epoch. */
  datatype DateTime = DateTime(millis: int)

  datatype Tag = Tag(
    id: Option<ObjectIds.ObjectId>,
    ownerId: ObjectIds.ObjectId,
    name: string,
    createdAt: DateTime,
    updatedAt: DateTime)

  /** What a client sends to create a tag: a name and nothing else. */
  datatype TagRequest = TagRequest(name: string)

  /** What a client is shown of a tag: its id and its name. */
  datatype TagResponse = TagResponse(id: ObjectIds.ObjectId, name: string)

  /**
   * `Tag::default()`: no id, an empty name, a fresh owner id and each
   * timestamp set to its own reading of the clock (`ObjectId::new()` and
   * the two `DateTime::now()` calls are parameters, which may differ).
   */
  function DefaultTag(freshOwner: ObjectIds.ObjectId, created: DateTime, updated: DateTime): (t: Tag)
    ensures t.id == None && t.name == ""
    ensures t.ownerId == freshOwner && t.createdAt == created && t.updatedAt == updated
  {
    Tag(None, freshOwner, "", created, updated)
  }

  /** `Tag::to_tag`: unwraps the id, so the tag must have been stored. */
  function ToTag(t: Tag): (r: TagResponse)
    requires t.id.Some?
    ensures r.id == t.id.value && r.name == t.name
  {
    TagResponse(t.id.value, t.name)
  }

  /** The response drops the owner and the timestamps: tags agreeing on id and name look the same. */
  lemma ToTagSeesOnlyIdAndName(a: Tag, b: Tag)
    requires a.id.Some? && b.id.Some?
    ensures ToTag(a) == ToTag(b) <==> (a.id == b.id && a.name == b.name)
  {
  }

  /** A response determines the stored tag's id and name, whatever its owner and timestamps. */
  lemma ToTagRecoversIdAndName(r: TagResponse, owner: ObjectIds.ObjectId, created: DateTime, updated: DateTime)
    ensures ToTag(Tag(Some(r.id), owner, r.name, created, updated)) == r
  {
  }
}
