/**
 * The post records of src/models/post.rs: `Post`, its `Default`, the wire
 * names of `PostType`, and the projection to `PostResponse`, which looks up
 * the author and the tags (the lookups are parameters).
 */
module Posts {
  import opened Wrappers
  import ObjectIds
  import Tags
  import AuthService

  /** Rust's `i32`. */
  newtype int32 = x: int | -0x8000_0000 <= x < 0x8000_0000

  datatype MediaType = Image | Video

  datatype Media = Media(url: string, mediaType: MediaType)

  datatype PostType = Single | Multiple

  /** `#[serde(rename_all = "lowercase")]` on `PostType`. */
  function PostTypeName(t: PostType): string
  {
    match t
    case Single => "single"
    case Multiple => "multiple"
  }

  function ParsePostType(s: string): Option<PostType>
  {
    if s == "single" then Some(Single)
    else if s == "multiple" then Some(Multiple)
    else None
  }

  /** The two wire names parse back to their variants, and no other text names a variant. */
  lemma PostTypeWireNames(t: PostType, s: string)
    ensures ParsePostType(PostTypeName(t)) == Some(t)
    ensures ParsePostType(s).Some? ==> PostTypeName(ParsePostType(s).value) == s
    ensures ParsePostType(s).Some? <==> s in {"single", "multiple"}
  {
  }

  datatype Post = Post(
    id: Option<ObjectIds.ObjectId>,
    authorId: ObjectIds.ObjectId,
    content: string,
    media: seq<Media>,
    tagIds: seq<ObjectIds.ObjectId>,
    likesCount: int32,
    commentsCount: int32,
    postType: PostType,
    createdAt: Tags.DateTime,
    updatedAt: Tags.DateTime)

  /** What a client sends to create a post. */
  datatype PostRequest = PostRequest(content: string, media: seq<Media>, tags: seq<ObjectIds.ObjectId>)

  /** `PostResponse`; the user response type is not part of this model and stays a parameter `U`. */
  datatype PostResponse<U> = PostResponse(
    id: ObjectIds.ObjectId,
    content: string,
    media: Option<seq<Media>>,
    author: Option<U>,
    tags: Option<seq<Tags.TagResponse>>,
    likesCount: int32,
    commentsCount: int32,
    postType: PostType,
    createdAt: string,
    updatedAt: string)

  /**
   * `Post::default()`: no id, empty content, media and tags, `Single`,
   * zero counts; a fresh author id and the two clock readings (one per
   * `DateTime::now()` call) are parameters.
   */
  function DefaultPost(freshAuthor: ObjectIds.ObjectId, created: Tags.DateTime, updated: Tags.DateTime): (p: Post)
    ensures p.id == None && p.content == "" && p.media == [] && p.tagIds == []
    ensures p.postType == Single && p.likesCount == 0 && p.commentsCount == 0
    ensures p.authorId == freshAuthor && p.createdAt == created && p.updatedAt == updated
  {
    Post(None, freshAuthor, "", [], [], 0, 0, Single, created, updated)
  }

  /** `find_one` on the users collection by `_id`. */
  type UserById = ObjectIds.ObjectId -> Result<Option<AuthService.User>, string>

  /** `find_one` on the tags collection by `_id`. */
  type TagById = ObjectIds.ObjectId -> Result<Option<Tags.Tag>, string>

  /** `Post::author`: the author's response, or `None` on a lookup error or when no user has that id. */
  function Author<U>(authorId: ObjectIds.ObjectId, findUser: UserById, toUser: AuthService.User -> U)
    : (r: Option<U>)
    ensures r.Some? <==> findUser(authorId).Ok? && findUser(authorId).value.Some?
    ensures r.Some? ==> r.value == toUser(findUser(authorId).value.value)
  {
    match findUser(authorId)
    case Err(_) => None
    case Ok(None) => None
    case Ok(Some(u)) => Some(toUser(u))
  }

  /** Every tag the collection returns has been stored, so it has an id. */
  ghost predicate StoredTags(findTag: TagById)
  {
    forall x {:trigger findTag(x)} :: findTag(x).Ok? && findTag(x).value.Some? ==> findTag(x).value.value.id.Some?
  }

  predicate Found(findTag: TagById, x: ObjectIds.ObjectId)
  {
    findTag(x).Ok? && findTag(x).value.Some?
  }

  /** The responses of the ids that were found, in the order of the ids. */
  function FoundTags(ids: seq<ObjectIds.ObjectId>, findTag: TagById): (r: seq<Tags.TagResponse>)
    requires StoredTags(findTag)
    ensures |r| <= |ids|
    decreases |ids|
  {
    if ids == [] then []
    else
      var x := ids[|ids| - 1];
      FoundTags(ids[..|ids| - 1], findTag) + (if Found(findTag, x) then [Tags.ToTag(findTag(x).value.value)] else [])
  }

  /**
   * `Post::tags`: look the ids up one after the other and push the response
   * of each tag found; missing tags and lookup errors are skipped. The
   * result is always `Some`.
   */
  method TagResponses(ids: seq<ObjectIds.ObjectId>, findTag: TagById) returns (r: Option<seq<Tags.TagResponse>>)
    requires StoredTags(findTag)
    ensures r == Some(FoundTags(ids, findTag))
  {
    var tags: seq<Tags.TagResponse> := [];
    var i := 0;
    while i < |ids|
      invariant 0 <= i <= |ids|
      invariant tags == FoundTags(ids[..i], findTag)
    {
      assert ids[..i + 1][..i] == ids[..i];
      var found := findTag(ids[i]);
      if found.Ok? && found.value.Some? {
        tags := tags + [Tags.ToTag(found.value.value)];
      }
      i := i + 1;
    }
    assert ids[..i] == ids;
    r := Some(tags);
  }

  /** Looking up a concatenation gives the two lookups' results one after the other. */
  lemma {:induction false} FoundTagsAppend(a: seq<ObjectIds.ObjectId>, b: seq<ObjectIds.ObjectId>, findTag: TagById)
    requires StoredTags(findTag)
    ensures FoundTags(a + b, findTag) == FoundTags(a, findTag) + FoundTags(b, findTag)
    decreases |b|
  {
    if b == [] {
      assert a + b == a;
    } else {
      var b' := b[..|b| - 1];
      assert (a + b)[..|a + b| - 1] == a + b';
      assert (a + b)[|a + b| - 1] == b[|b| - 1];
      FoundTagsAppend(a, b', findTag);
    }
  }

  /** When every id is found, the list holds exactly the responses of those tags, in order. */
  lemma {:induction false} FoundTagsAllFound(ids: seq<ObjectIds.ObjectId>, findTag: TagById)
    requires StoredTags(findTag)
    requires forall i :: 0 <= i < |ids| ==> Found(findTag, ids[i])
    ensures |FoundTags(ids, findTag)| == |ids|
    ensures forall i :: 0 <= i < |ids| ==>
      Found(findTag, ids[i]) && FoundTags(ids, findTag)[i] == Tags.ToTag(findTag(ids[i]).value.value)
    decreases |ids|
  {
    if ids != [] {
      var front := ids[..|ids| - 1];
      FoundTagsAllFound(front, findTag);
      assert Found(findTag, ids[|ids| - 1]);
    }
  }

  /** An id that is not found contributes nothing; the list is as if it were absent. */
  lemma FoundTagsSkipsMissing(a: seq<ObjectIds.ObjectId>, x: ObjectIds.ObjectId, b: seq<ObjectIds.ObjectId>,
                              findTag: TagById)
    requires StoredTags(findTag)
    requires !Found(findTag, x)
    ensures FoundTags(a + [x] + b, findTag) == FoundTags(a + b, findTag)
  {
    FoundTagsAppend(a + [x], b, findTag);
    FoundTagsAppend(a, [x], findTag);
    FoundTagsAppend(a, b, findTag);
    assert [x][..0] == [];
  }

  /** Every listed response belongs to one of the ids that was found. */
  lemma {:induction false} FoundTagsSound(ids: seq<ObjectIds.ObjectId>, findTag: TagById, k: nat)
    requires StoredTags(findTag)
    requires k < |FoundTags(ids, findTag)|
    ensures exists i :: 0 <= i < |ids| && Found(findTag, ids[i])
                        && FoundTags(ids, findTag)[k] == Tags.ToTag(findTag(ids[i]).value.value)
    decreases |ids|
  {
    var front := ids[..|ids| - 1];
    var x := ids[|ids| - 1];
    if k < |FoundTags(front, findTag)| {
      FoundTagsSound(front, findTag, k);
      var i :| 0 <= i < |front| && Found(findTag, front[i])
               && FoundTags(front, findTag)[k] == Tags.ToTag(findTag(front[i]).value.value);
      assert ids[i] == front[i];
    } else {
      assert Found(findTag, x);
      assert FoundTags(ids, findTag)[k] == Tags.ToTag(findTag(x).value.value);
    }
  }

  /**
   * `Post::to_post`: `None` stays `None`; a stored post keeps its id,
   * content, counts and type, gets its media wrapped in `Some`, its author
   * looked up and its tags resolved. `showTime` renders a `DateTime`.
   */
  function ToPost<U>(data: Option<Post>, findUser: UserById, toUser: AuthService.User -> U, findTag: TagById,
                     showTime: Tags.DateTime -> string): (r: Option<PostResponse<U>>)
    requires StoredTags(findTag)
    requires data.Some? ==> data.value.id.Some?
    ensures r.Some? <==> data.Some?
    ensures r.Some? ==>
      var d := data.value;
      r.value.id == d.id.value && r.value.content == d.content && r.value.media == Some(d.media)
      && r.value.likesCount == d.likesCount && r.value.commentsCount == d.commentsCount
      && r.value.postType == d.postType
      && r.value.author == Author(d.authorId, findUser, toUser)
      && r.value.tags == Some(FoundTags(d.tagIds, findTag))
      && r.value.createdAt == showTime(d.createdAt) && r.value.updatedAt == showTime(d.updatedAt)
  {
    match data
    case None => None
    case Some(d) =>
      Some(PostResponse(d.id.value, d.content, Some(d.media), Author(d.authorId, findUser, toUser),
                        Some(FoundTags(d.tagIds, findTag)), d.likesCount, d.commentsCount, d.postType,
                        showTime(d.createdAt), showTime(d.updatedAt)))
  }
}
